/**
 * Rounding to a number of decimal places as pandas' Series.round does it
 * (it defers to numpy): scale by 10^d, round to the nearest integer with
 * ties going to the even one, scale back. Values are exact reals here.
 */
module Rounding {

  /** `x` times 10 to the power `d`. */
  function ScaleUp(x: real, d: nat): real {
    if d == 0 then x else 10.0 * ScaleUp(x, d - 1)
  }

  /** `x` divided by 10 to the power `d`. */
  function ScaleDown(x: real, d: nat): real {
    if d == 0 then x else ScaleDown(x, d - 1) / 10.0
  }

  /** Dividing by 10^d undoes multiplying by 10^d, and the other way round. */
  lemma {:induction false} ScaleInverse(x: real, d: nat)
    ensures ScaleDown(ScaleUp(x, d), d) == x
    ensures ScaleUp(ScaleDown(x, d), d) == x
  {
    if d > 0 {
      ScaleInverse(x, d - 1);
      ScaleDownTen(10.0 * ScaleUp(x, d - 1), d - 1);
      ScaleUpTen(ScaleDown(x, d - 1) / 10.0, d - 1);
    }
  }

  lemma {:induction false} ScaleDownTen(x: real, d: nat)
    ensures ScaleDown(x, d) / 10.0 == ScaleDown(x / 10.0, d)
  {
    if d > 0 {
      ScaleDownTen(x, d - 1);
    }
  }

  lemma {:induction false} ScaleUpTen(x: real, d: nat)
    ensures 10.0 * ScaleUp(x, d) == ScaleUp(10.0 * x, d)
  {
    if d > 0 {
      ScaleUpTen(x, d - 1);
    }
  }

  /** Multiplying by 10^d distributes over a difference. */
  lemma {:induction false} ScaleUpDifference(a: real, b: real, d: nat)
    ensures ScaleUp(a - b, d) == ScaleUp(a, d) - ScaleUp(b, d)
  {
    if d > 0 {
      ScaleUpDifference(a, b, d - 1);
    }
  }

  /**
   * The integer nearest to `x`; of two equally near integers, the even one
   * (numpy's rint).
   */
  function Rint(x: real): (n: int)
    ensures -0.5 <= x - n as real <= 0.5
    ensures (x - n as real == 0.5 || n as real - x == 0.5) ==> n % 2 == 0
  {
    var f := x.Floor;
    var frac := x - f as real;
    if frac < 0.5 then f
    else if frac > 0.5 then f + 1
    else if f % 2 == 0 then f
    else f + 1
  }

  /** An integer nearer than one half to `x` is the rounded value. */
  lemma RintUnique(x: real, n: int)
    requires -0.5 < x - n as real < 0.5
    ensures Rint(x) == n
  {
    var r := Rint(x);
    assert -1.0 < (r - n) as real < 1.0;
  }

  /** An even integer exactly one half away from `x` is the rounded value. */
  lemma RintTie(x: real, n: int)
    requires x - n as real == 0.5 || n as real - x == 0.5
    requires n % 2 == 0
    ensures Rint(x) == n
  {
  }

  /** Rounding never moves downwards past a larger input: it is monotone. */
  lemma RintMonotone(x: real, y: real)
    requires x <= y
    ensures Rint(x) <= Rint(y)
  {
  }

  /** `x` has at most `d` decimal places: scaled up by 10^d it is a whole number. */
  predicate HasPlaces(x: real, d: nat) {
    ScaleUp(x, d).Floor as real == ScaleUp(x, d)
  }

  /** `x` rounded to `d` decimal places: numpy's round(x, d). The result has at most `d` places. */
  function Round(x: real, d: nat): (r: real)
    ensures HasPlaces(r, d)
  {
    var n := Rint(ScaleUp(x, d));
    ScaleInverse(n as real, d);
    ScaleDown(n as real, d)
  }

  /** Rounding is off by at most half a unit in the last kept place. */
  lemma RoundError(x: real, d: nat)
    ensures -0.5 <= ScaleUp(Round(x, d) - x, d) <= 0.5
  {
    ScaleInverse(Rint(ScaleUp(x, d)) as real, d);
    ScaleUpDifference(Round(x, d), x, d);
  }

  /** A value that already has at most `d` decimal places is left as it is. */
  lemma RoundExact(x: real, d: nat, n: int)
    requires ScaleUp(x, d) == n as real
    ensures Round(x, d) == x
  {
    RintUnique(ScaleUp(x, d), n);
    ScaleInverse(x, d);
  }

  /** Two places: 20 litres stay 20, and 3200 yen at zero places stay 3200. */
  lemma RoundExamples()
    ensures Round(20.0, 2) == 20.0
    ensures Round(3200.0, 0) == 3200.0
    ensures Round(0.125, 2) == 0.12
    ensures Round(0.135, 2) == 0.14
  {
    RoundExact(20.0, 2, 2000);
    RoundExact(3200.0, 0, 3200);
    assert ScaleUp(0.125, 2) == 12.5;
    RintTie(12.5, 12);
    assert ScaleDown(12.0, 2) == 0.12;
    assert ScaleUp(0.135, 2) == 13.5;
    RintTie(13.5, 14);
    assert ScaleDown(14.0, 2) == 0.14;
  }
}
