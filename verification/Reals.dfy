/** Products of real numbers. The solver is given them one step at a time: `Times` is hidden wherever a proof only
    needs what the lemmas below say of it. */
module Reals {
  function Times(a: real, b: real): real {
    a * b
  }

  lemma TimesSign(a: real, b: real)
    requires a >= 0.0 && b >= 0.0
    ensures Times(a, b) >= 0.0
  {
  }

  lemma TimesPositive(a: real, b: real)
    requires a > 0.0 && b > 0.0
    ensures Times(a, b) > 0.0
  {
  }

  lemma TimesLess(a: real, b: real, p: real)
    ensures Times(b - a, p) == Times(b, p) - Times(a, p) && Times(p, b - a) == Times(p, b) - Times(p, a)
    ensures Times(1.0, p) == p == Times(p, 1.0) && Times(0.0, p) == 0.0
  {
  }

  lemma TimesOrder(a: real, b: real, p: real)
    requires a <= b && p >= 0.0
    ensures Times(a, p) <= Times(b, p)
    ensures a < b && p > 0.0 ==> Times(a, p) < Times(b, p)
  {
    hide Times;
    TimesSign(b - a, p);
    if a < b && p > 0.0 {
      TimesPositive(b - a, p);
    }
    TimesLess(a, b, p);
  }

  /** A product with a factor of the unit range is no larger than the other factor. */
  lemma TimesShrinksUp(a: real, k: real)
    requires a >= 0.0 && 0.0 <= k <= 1.0
    ensures 0.0 <= Times(a, k) <= a
  {
    hide Times;
    TimesSign(a, k);
    TimesSign(a, 1.0 - k);
    TimesLess(k, 1.0, a);
  }

  lemma TimesShrinks(a: real, b: real)
    requires 0.0 <= a <= 1.0 && 0.0 <= b <= 1.0
    ensures 0.0 <= Times(a, b) <= a && Times(a, b) <= b
  {
    hide Times;
    TimesShrinksUp(a, b);
    TimesSign(1.0 - a, b);
    TimesLess(a, 1.0, b);
  }

  lemma NonNegative(a: real, b: real)
    requires a >= 0.0 && b >= 0.0
    ensures a * b >= 0.0
  {
    TimesSign(a, b);
  }

  lemma Scale(a: real, b: real, p: real)
    requires a <= b && p >= 0.0
    ensures a * p <= b * p
    ensures a < b && p > 0.0 ==> a * p < b * p
  {
    TimesOrder(a, b, p);
  }

  lemma Product(a: real, b: real)
    requires 0.0 <= a <= 1.0 && 0.0 <= b <= 1.0
    ensures 0.0 <= a * b <= a && a * b <= b
  {
    TimesShrinks(a, b);
  }

  lemma SquareNotNegative(v: real)
    ensures v * v >= 0.0
  {
    if v >= 0.0 {
      TimesSign(v, v);
    } else {
      TimesSign(-v, -v);
    }
  }

  lemma TimesSquares(a: real, b: real)
    requires 0.0 <= a <= b
    ensures Times(a, a) <= Times(b, b)
    ensures a < b ==> Times(a, a) < Times(b, b)
  {
    TimesCommutes(a, b);
    hide Times;
    TimesOrder(a, b, a);
    TimesOrder(a, b, b);
  }

  lemma TimesCommutes(a: real, b: real)
    ensures Times(a, b) == Times(b, a)
  {
  }

  lemma SquareOrder(a: real, b: real)
    requires a >= 0.0 && b >= 0.0
    ensures a <= b <==> a * a <= b * b
  {
    if a <= b {
      TimesSquares(a, b);
    } else {
      TimesSquares(b, a);
    }
  }
}
