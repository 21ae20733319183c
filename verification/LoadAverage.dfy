/**
 `calc_load` and its catch-up form `calc_load_n`: one exponential-average step, and n of them at once.
 */
module LoadAverage {
  import opened Basics
  import opened FixedPoint

  const FIXED_1: nat := 2048
  const EXP_1: nat := 1884
  const EXP_5: nat := 2014
  const EXP_15: nat := 2037

  /** `calc_load`. */
  function CalcLoad(load: nat, exp: nat, active: nat): nat
    requires exp <= FIXED_1
  {
    Round(Product(load, exp) + Product(active, FIXED_1 - exp), FIXED_1)
  }

  /** `calc_load_n`. */
  function CalcLoadN(load: nat, exp: nat, active: nat, n: nat): nat
    requires exp <= FIXED_1
  {
    PowerError(exp, n, FIXED_1);
    CalcLoad(load, FixedPow(FIXED_1, exp, n, FIXED_1), active)
  }

  /** n single steps. */
  function Steps(load: nat, exp: nat, active: nat, n: nat): nat
    requires exp <= FIXED_1
  {
    if n == 0 then load else CalcLoad(Steps(load, exp, active, n - 1), exp, active)
  }

  // ----- distance to the exact average

  ghost function Unit(): real
  {
    FIXED_1 as real
  }

  /** active + (load - active) * w. */
  ghost function Blend(load: real, active: real, w: real): real
  {
    active + Times(load - active, w)
  }

  lemma CalcLoadNear(load: nat, p: nat, active: nat)
    requires p <= FIXED_1
    ensures 0.0 <= Over(p as real, Unit()) <= 1.0
    ensures Near(CalcLoad(load, p, active) as real, Blend(load as real, active as real, Over(p as real, Unit())), 0.5)
  {
    var y := Product(load, p) + Product(active, FIXED_1 - p);
    RoundNear(y, FIXED_1);
    Fraction(p, FIXED_1);
    IntTimes(load, p);
    IntTimes(active, FIXED_1 - p);
    hide Times, Over, Round, Product;
    var L, A, P, O, w := load as real, active as real, p as real, Unit(), Over(p as real, Unit());
    assert y as real == Times(L, P) + Times(A, O - P);
    TimesLaws(O, P, A);
    TimesLaws(A, O - P, 0.0);
    TimesLaws(A, O, 0.0);
    TimesLaws(A, P, 0.0);
    TimesLaws(L, A, P);
    TimesLaws(A, Times(L - A, w), O);
    TimesLaws(L - A, w, O);
    OverIs(y as real, Blend(L, A, w), O);
  }

  lemma {:induction false} StepsNear(load: nat, exp: nat, active: nat, n: nat)
    requires exp <= FIXED_1
    ensures Near(Steps(load, exp, active, n) as real,
              Blend(load as real, active as real, Power(Over(exp as real, Unit()), n)), Over(n as real, 2.0))
  {
    var L, A, w := load as real, active as real, Over(exp as real, Unit());
    if n == 0 {
      TimesUnits(L - A);
    } else {
      StepsNear(load, exp, active, n - 1);
      var m := Steps(load, exp, active, n - 1);
      CalcLoadNear(m, exp, active);
      assert Over(n as real, 2.0) == Over((n - 1) as real, 2.0) + 0.5;
      hide Times, Over, CalcLoad;
      ScaleNear(m as real - A, Times(L - A, Power(w, n - 1)), Over((n - 1) as real, 2.0), w);
      TimesLaws(L - A, Power(w, n - 1), w);
      TimesLaws(Power(w, n - 1), w, 0.0);
    }
  }

  ghost function Abs(x: real): real
  {
    if x < 0.0 then -x else x
  }

  /** A weight off by e moves the blend by at most |load - active| * e. */
  lemma WeightNear(d: real, w: real, v: real, e: real)
    requires Near(w, v, e)
    ensures Near(Times(d, w), Times(d, v), Times(Abs(d), e))
  {
    hide Times;
    TimesLaws(w, v, d);
    TimesLaws(d, w, 0.0);
    TimesLaws(d, v, 0.0);
    TimesLaws(Abs(d), e, 0.0);
    TimesMono(w - v, e, Abs(d));
    TimesMono(-e, w - v, Abs(d));
    TimesLaws(0.0, e, Abs(d));
    TimesUnits(Abs(d));
    TimesLaws(0.0, d, w - v);
    TimesUnits(w - v);
    TimesLaws(w - v, d, 0.0);
    TimesLaws(w - v, Abs(d), 0.0);
  }

  lemma ShrinkNear(p: real, q: real, e: real, o: real)
    requires o > 0.0 && Near(p, Times(o, q), e)
    ensures Near(Over(p, o), q, Over(e, o))
  {
    hide Times, Over;
    var w, f := Over(p, o), Over(e, o);
    OverTimes(p, o);
    OverTimes(e, o);
    TimesLaws(o, q, 0.0);
    TimesLaws(q, f, o);
    Cancel(q - f, w, o);
    Cancel(w, q + f, o);
  }

  lemma CalcLoadNNear(load: nat, exp: nat, active: nat, n: nat)
    requires exp <= FIXED_1
    ensures Near(CalcLoadN(load, exp, active, n) as real,
              Blend(load as real, active as real, Power(Over(exp as real, Unit()), n)),
              0.5 + Times(Abs(load as real - active as real), Over(Over(n as real, 2.0), Unit())))
  {
    var p := FixedPow(FIXED_1, exp, n, FIXED_1);
    PowerError(exp, n, FIXED_1);
    CalcLoadNear(load, p, active);
    hide Times, Over, CalcLoad, FixedPow, Power;
    var P := Power(Over(exp as real, Unit()), n);
    ShrinkNear(p as real, P, Over(n as real, 2.0), Unit());
    WeightNear(load as real - active as real, Over(p as real, Unit()), P, Over(Over(n as real, 2.0), Unit()));
  }

  /** Catching up n periods at once is within (n + 1)/2 + n * |load - active| / 4096 of n single steps. */
  lemma CatchUp(load: nat, exp: nat, active: nat, n: nat)
    requires exp <= FIXED_1
    ensures Near(CalcLoadN(load, exp, active, n) as real, Steps(load, exp, active, n) as real,
              Over((n + 1) as real, 2.0) + Over(Times(n as real, Abs(load as real - active as real)), 4096.0))
  {
    var d := Abs(load as real - active as real);
    HalfMore(n);
    FoldHalves(n as real, d);
    hide Times, Over, CalcLoadN, Steps, Power, Abs;
    CalcLoadNNear(load, exp, active, n);
    StepsNear(load, exp, active, n);
  }

  lemma HalfMore(n: nat)
    ensures Over(n as real, 2.0) + 0.5 == Over((n + 1) as real, 2.0)
  {
  }

  lemma FoldHalves(n: real, d: real)
    ensures Times(d, Over(Over(n, 2.0), Unit())) == Over(Times(n, d), 4096.0)
  {
  }

  // ----- one step

  /** A step never overshoots, and it moves exactly when the distance is worth rounding up to one unit. */
  lemma CalcLoadStep(load: nat, exp: nat, active: nat)
    requires exp <= FIXED_1
    ensures load <= active ==> load <= CalcLoad(load, exp, active) <= active
    ensures load >= active ==> active <= CalcLoad(load, exp, active) <= load
    ensures load < active ==>
      (CalcLoad(load, exp, active) > load <==> (active - load) * (FIXED_1 - exp) >= 1024)
    ensures load > active ==>
      (CalcLoad(load, exp, active) < load <==> (load - active) * (FIXED_1 - exp) > 1024)
  {
    var r, w := CalcLoad(load, exp, active), FIXED_1 - exp;
    var d := active - load;
    var m := d * w;
    BlendIs(load, exp, active, m);
    assert if d >= 0 then 0 <= m <= d * FIXED_1 else d * FIXED_1 <= m <= 0 by {
      SignedBound(d, w);
    }
    var y := Product(load, exp) + Product(active, w);
    hide Product;
    assert y == load * FIXED_1 + m;
    assert r == (y + 1024) / FIXED_1;
  }

  lemma BlendIs(load: nat, exp: nat, active: nat, m: int)
    requires exp <= FIXED_1 && m == (active - load) * (FIXED_1 - exp)
    ensures Product(load, exp) + Product(active, FIXED_1 - exp) == load * FIXED_1 + m
  {
    var w := FIXED_1 - exp;
    assert load * exp + load * w == load * FIXED_1;
    assert (active - load) * w == active * w - load * w;
  }

  lemma SignedBound(d: int, w: nat)
    requires w <= FIXED_1
    ensures if d >= 0 then 0 <= d * w <= d * FIXED_1 else d * FIXED_1 <= d * w <= 0
  {
  }

  function Distance(a: nat, b: nat): nat
  {
    if a <= b then b - a else a - b
  }

  /** Under a constant number of active tasks, the average comes within rounding distance after at most as many
      steps as it was units away, and stays there. */
  lemma {:induction false} Settles(load: nat, exp: nat, active: nat, n: nat)
    requires exp <= FIXED_1
    ensures Distance(Steps(load, exp, active, n), active) <= Distance(load, active)
    ensures n >= Distance(load, active) ==>
      Distance(Steps(load, exp, active, n), active) * (FIXED_1 - exp) <= 1024
    ensures Distance(Steps(load, exp, active, n), active) * (FIXED_1 - exp) > 1024 ==>
      Distance(Steps(load, exp, active, n), active) + n <= Distance(load, active)
  {
    if n > 0 {
      hide CalcLoad;
      var l := Steps(load, exp, active, n - 1);
      var m := Steps(load, exp, active, n);
      Settles(load, exp, active, n - 1);
      CalcLoadStep(l, exp, active);
      IntMono(Distance(m, active), Distance(l, active), FIXED_1 - exp);
    }
  }

  /** No intermediate value leaves an unsigned long when both loads are below bound and bound * 2048 + 1024 fits. */
  lemma NoOverflow(load: nat, exp: nat, active: nat, bound: nat)
    requires exp <= FIXED_1 && load <= bound && active <= bound && bound * FIXED_1 + 1024 < 0x1_0000_0000
    ensures Product(load, exp) + Product(active, FIXED_1 - exp) + 1024 < 0x1_0000_0000
    ensures CalcLoad(load, exp, active) <= bound
  {
    var w := FIXED_1 - exp;
    IntMono(load, bound, exp);
    IntMono(active, bound, w);
    assert bound * exp + bound * w == bound * FIXED_1;
    CalcLoadStep(load, exp, active);
  }

  /** Where the three averages come to rest: within 6, 30 and 93 units of 2048 of the active count, after at most as
      many steps as they were units away. */
  lemma RestingDistance(load: nat, active: nat, n: nat)
    requires n >= Distance(load, active)
    ensures Distance(Steps(load, EXP_1, active, n), active) <= 6
    ensures Distance(Steps(load, EXP_5, active, n), active) <= 30
    ensures Distance(Steps(load, EXP_15, active, n), active) <= 93
  {
    hide Steps;
    Settles(load, EXP_1, active, n);
    Settles(load, EXP_5, active, n);
    Settles(load, EXP_15, active, n);
  }
}
