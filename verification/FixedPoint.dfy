/**
 The fixed-point arithmetic of the load average, against real arithmetic: the logarithmic power
 and the catch-up over n missed periods stay within stated distances of the exact values.
 */
module FixedPoint {
  import opened Basics

  // ----- real products, named so that proofs can treat them as symbols

  ghost function Times(x: real, y: real): real
  {
    x * y
  }

  ghost function Over(x: real, y: real): real
    requires y != 0.0
  {
    x / y
  }

  lemma TimesLaws(a: real, b: real, k: real)
    ensures Times(a, b) == Times(b, a)
    ensures Times(Times(a, b), k) == Times(a, Times(b, k))
    ensures Times(a + b, k) == Times(a, k) + Times(b, k)
    ensures Times(a - b, k) == Times(a, k) - Times(b, k)
  {
  }

  lemma TimesUnits(a: real)
    ensures Times(a, 1.0) == a && Times(1.0, a) == a && Times(a, 0.0) == 0.0 && Times(0.0, a) == 0.0
  {
  }

  lemma TimesSign(a: real, b: real)
    requires a >= 0.0 && b >= 0.0
    ensures Times(a, b) >= 0.0
  {
  }

  lemma TimesMono(a: real, b: real, k: real)
    requires a <= b && k >= 0.0
    ensures Times(a, k) <= Times(b, k)
  {
    hide Times;
    TimesSign(b - a, k);
    TimesLaws(b, a, k);
  }

  lemma OverTimes(x: real, o: real)
    requires o != 0.0
    ensures Times(Over(x, o), o) == x
  {
  }

  lemma Cancel(a: real, b: real, o: real)
    requires o > 0.0 && Times(a, o) <= Times(b, o)
    ensures a <= b
  {
  }

  lemma IntTimes(a: nat, b: nat)
    ensures Product(a, b) as real == Times(a as real, b as real)
  {
  }

  lemma UnitProduct(a: real, b: real)
    requires 0.0 <= a <= 1.0 && 0.0 <= b <= 1.0
    ensures 0.0 <= Times(a, b) <= 1.0
  {
    hide Times;
    TimesSign(a, b);
    TimesMono(a, 1.0, b);
    TimesUnits(b);
  }

  ghost predicate Near(a: real, b: real, e: real)
  {
    b - e <= a <= b + e
  }

  lemma ScaleNear(a: real, b: real, e: real, k: real)
    requires Near(a, b, e) && 0.0 <= k <= 1.0
    ensures Near(Times(a, k), Times(b, k), e)
  {
    hide Times;
    TimesMono(b - e, a, k);
    TimesMono(a, b + e, k);
    TimesLaws(b, e, k);
    TimesMono(k, 1.0, e);
    TimesLaws(k, e, 0.0);
    TimesUnits(e);
  }

  // ----- the logarithmic power

  /** `(a * b + (1UL << (frac_bits - 1))) >> frac_bits`, with one == 1UL << frac_bits. */
  function MulRound(a: nat, b: nat, one: nat): nat
    requires one > 0
  {
    Round(Product(a, b), one)
  }

  function Round(y: nat, one: nat): nat
    requires one > 0
  {
    (y + one / 2) / one
  }

  /** The values the loop of `fixed_power_int` goes through. */
  function FixedPow(result: nat, x: nat, n: nat, one: nat): nat
    requires one > 0
    decreases n
  {
    if n == 0 then result
    else FixedPow(if n % 2 == 1 then MulRound(result, x, one) else result, MulRound(x, x, one), n / 2, one)
  }

  ghost function Power(x: real, n: nat): real
  {
    if n == 0 then 1.0 else Times(x, Power(x, n - 1))
  }

  lemma {:induction false} PowerSquare(x: real, k: nat)
    ensures Power(x, 2 * k) == Power(Times(x, x), k)
  {
    hide Times;
    if k > 0 {
      PowerSquare(x, k - 1);
      assert Power(x, 2 * k) == Times(x, Times(x, Power(x, 2 * k - 2)));
      TimesLaws(x, x, Power(x, 2 * k - 2));
    }
  }

  /** What one turn of the loop does to the exact power. */
  lemma PowerHalve(x: real, n: nat)
    requires n > 0
    ensures Power(x, n) == Times(if n % 2 == 1 then x else 1.0, Power(Times(x, x), n / 2))
  {
    hide Times;
    PowerSquare(x, n / 2);
    TimesUnits(Power(x, n));
    if n % 2 == 1 {
      assert n - 1 == 2 * (n / 2);
    } else {
      assert n == 2 * (n / 2);
    }
  }

  lemma {:induction false} PowerUnit(x: real, n: nat)
    requires 0.0 <= x <= 1.0
    ensures 0.0 <= Power(x, n) <= 1.0
  {
    if n > 0 {
      PowerUnit(x, n - 1);
      UnitProduct(x, Power(x, n - 1));
    }
  }

  /** Rounding is off by at most one half. */
  lemma RoundNear(y: nat, one: nat)
    requires one > 0 && one % 2 == 0
    ensures Near(Round(y, one) as real, Over(y as real, one as real), 0.5)
  {
    var q := Round(y, one);
    assert Product(q, one) <= y + one / 2 < Product(q, one) + one;
    hide Times, Over, Product;
    var o, qr, r := one as real, q as real, Over(y as real, one as real);
    OverTimes(y as real, o);
    IntTimes(q, one);
    TimesLaws(qr, 0.5, o);
    TimesHalf(one);
    Cancel(qr - 0.5, r, o);
    Cancel(r, qr + 0.5, o);
  }

  lemma TimesHalf(one: nat)
    requires one % 2 == 0
    ensures Times(0.5, one as real) == (one / 2) as real
  {
  }

  /** a stands for one * A, give or take ea. */
  ghost predicate Approx(a: nat, A: real, ea: real, one: nat)
  {
    a <= one && 0.0 <= A <= 1.0 && Near(a as real, Times(one as real, A), ea)
  }

  lemma Fraction(a: nat, one: nat)
    requires one > 0 && a <= one
    ensures 0.0 <= Over(a as real, one as real) <= 1.0
    ensures Times(Over(a as real, one as real), one as real) == a as real
  {
    hide Times, Over;
    var o, k := one as real, Over(a as real, one as real);
    OverTimes(a as real, o);
    TimesUnits(o);
    Cancel(k, 1.0, o);
    Cancel(0.0, k, o);
  }

  lemma RoundCap(a: nat, b: nat, one: nat)
    requires one > 0 && a <= one && b <= one
    ensures MulRound(a, b, one) <= one
  {
    IntMono(a, one, b);
    IntMono(b, one, one);
    DivUnder(Product(a, b) + one / 2, one, one);
  }

  lemma IntMono(a: nat, b: nat, k: nat)
    requires a <= b
    ensures a * k <= b * k
  {
  }

  lemma DivUnder(y: nat, d: nat, k: nat)
    requires d > 0 && y < (k + 1) * d
    ensures y / d <= k
  {
    var q := y / d;
    assert q * d <= y;
    assert q >= k + 1 ==> q * d >= (k + 1) * d;
  }

  /** The errors of two factors add up, plus one half for the rounding. */
  lemma MulApprox(a: nat, A: real, ea: real, b: nat, B: real, eb: real, one: nat)
    requires one > 0 && one % 2 == 0
    requires Approx(a, A, ea, one) && Approx(b, B, eb, one)
    ensures Approx(MulRound(a, b, one), Times(A, B), ea + eb + 0.5, one)
  {
    RoundCap(a, b, one);
    RoundNear(Product(a, b), one);
    IntTimes(a, b);
    hide Times, Over, Round, Product;
    var o, ar, br, k := one as real, a as real, b as real, Over(a as real, one as real);
    Fraction(a, one);
    ScaleNear(br, Times(o, B), eb, k);
    ScaleNear(ar, Times(o, A), ea, B);
    UnitProduct(A, B);
    ExactProduct(ar, br, k, o);
    TimesLaws(o, B, k);
    TimesLaws(B, k, o);
    TimesLaws(o, Times(B, k), 0.0);
    TimesLaws(B, ar, 0.0);
    TimesLaws(o, A, B);
  }

  lemma ExactProduct(ar: real, br: real, k: real, o: real)
    requires o > 0.0 && Times(k, o) == ar
    ensures Over(Times(ar, br), o) == Times(br, k)
  {
    hide Times;
    TimesLaws(br, k, o);
    TimesLaws(br, ar, 0.0);
    OverIs(Times(ar, br), Times(br, k), o);
  }

  lemma OverIs(y: real, k: real, o: real)
    requires o != 0.0 && y == Times(k, o)
    ensures Over(y, o) == k
  {
  }

  /** The error of the loop: what was there, n times that of the base, and half a unit per factor. */
  ghost function Bound(er: real, ex: real, n: nat): real
  {
    er + Times(n as real, ex) + Over(n as real, 2.0)
  }

  /** The bound is the same before and after one turn of the loop. */
  lemma BoundTurn(er: real, ex: real, n: nat)
    ensures Bound(if n % 2 == 1 then er + ex + 0.5 else er, ex + ex + 0.5, n / 2) == Bound(er, ex, n)
  {
    var h := (n / 2) as real;
    assert n as real == h + h + if n % 2 == 1 then 1.0 else 0.0;
    assert Over(n as real, 2.0) == h + if n % 2 == 1 then 0.5 else 0.0;
    assert Over(h, 2.0) == Times(h, 0.5);
    hide Times, Over;
    TimesLaws(ex + ex, 0.5, h);
    TimesLaws(ex, ex, h);
    TimesLaws(ex + ex + 0.5, h, ex);
    TimesLaws(h, 0.5, ex);
    TimesLaws(h + h, 1.0, ex);
    TimesLaws(h, h, ex);
    TimesLaws(ex, h, ex);
    TimesUnits(ex);
    HalfSum(h);
  }

  lemma HalfSum(h: real)
    ensures Times(h, 0.5) + Times(h, 0.5) == h
  {
  }

  lemma {:induction false} FixedPowError(result: nat, R: real, er: real, x: nat, X: real, ex: real, n: nat, one: nat)
    requires one > 0 && one % 2 == 0
    requires Approx(result, R, er, one) && Approx(x, X, ex, one)
    ensures Approx(FixedPow(result, x, n, one), Times(R, Power(X, n)), Bound(er, ex, n), one)
    decreases n
  {
    if n == 0 {
      TimesUnits(R);
      TimesUnits(ex);
    } else {
      hide MulRound, Approx, Times, Bound;
      PowerHalve(X, n);
      MulApprox(x, X, ex, x, X, ex, one);
      BoundTurn(er, ex, n);
      var x1, h := MulRound(x, x, one), n / 2;
      if n % 2 == 1 {
        MulApprox(result, R, er, x, X, ex, one);
        FixedPowError(MulRound(result, x, one), Times(R, X), er + ex + 0.5, x1, Times(X, X), ex + ex + 0.5, h, one);
        TimesLaws(R, X, Power(Times(X, X), h));
      } else {
        FixedPowError(result, R, er, x1, Times(X, X), ex + ex + 0.5, h, one);
        TimesUnits(Power(Times(X, X), h));
      }
    }
  }

  /** The logarithmic power never exceeds one and is within n/2 of the exact power. */
  lemma PowerError(x: nat, n: nat, one: nat)
    requires one > 0 && one % 2 == 0 && x <= one
    ensures FixedPow(one, x, n, one) <= one
    ensures Near(FixedPow(one, x, n, one) as real,
              Times(one as real, Power(Over(x as real, one as real), n)), Over(n as real, 2.0))
  {
    hide FixedPow, Power, Times, Over;
    var X := Over(x as real, one as real);
    Fraction(x, one);
    TimesLaws(X, one as real, 0.0);
    TimesUnits(one as real);
    FixedPowError(one, 1.0, 0.0, x, X, 0.0, n, one);
    TimesUnits(Power(X, n));
    TimesUnits(n as real);
  }

  /** `fixed_power_int`. */
  method FixedPowerInt(x0: nat, fracBits: nat, n0: nat) returns (result: nat)
    requires fracBits > 0
    ensures result == FixedPow(Pow2(fracBits), x0, n0, Pow2(fracBits))
  {
    var one := Pow2(fracBits);
    var x: nat, n: nat := x0, n0;
    result := one;
    if n != 0 {
      while true
        invariant n > 0
        invariant FixedPow(result, x, n, one) == FixedPow(one, x0, n0, one)
        decreases n
      {
        if n % 2 == 1 {
          result := MulRound(result, x, one);
        }
        n := n / 2;
        if n == 0 {
          break;
        }
        x := MulRound(x, x, one);
      }
    }
  }
}
