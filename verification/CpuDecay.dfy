/**
 How close the table-driven decay of `decay_load_missed` is to the exact decay it stands for: the table holds the
 powers of (2^idx - 1) / 2^idx on a 128-point scale, rounded down.
 */
module CpuDecay {
  import opened Basics
  import opened FixedPoint
  import opened CpuLoad

  /** (2^idx - 1) / 2^idx: what one idle tick leaves of a load. */
  ghost function Ratio(idx: nat): real
  {
    Over((Pow2(idx) - 1) as real, Pow2(idx) as real)
  }

  /** The exact value a table column stands for: the decay over 2^j ticks. */
  ghost function Column(idx: nat, j: nat): real
  {
    if j == 0 then Ratio(idx) else Times(Column(idx, j - 1), Column(idx, j - 1))
  }

  /** The number of table look-ups. */
  function Bits(n: nat): nat
  {
    if n == 0 then 0 else n % 2 + Bits(n / 2)
  }

  lemma Ratios()
    ensures Ratio(0) == 0.0 && Ratio(1) == 0.5 && Ratio(2) == 0.75 && Ratio(3) == 0.875 && Ratio(4) == 0.9375
  {
    assert Pow2(0) == 1 && Pow2(1) == 2 && Pow2(2) == 4 && Pow2(3) == 8 && Pow2(4) == 16;
  }

  /** A square lies between the squares of bounds. */
  lemma Square(x: real, lo: real, hi: real)
    requires 0.0 <= lo <= x <= hi
    ensures Times(lo, lo) <= Times(x, x) <= Times(hi, hi)
  {
    TimesMono(lo, x, lo);
    TimesMono(lo, x, x);
    TimesMono(x, hi, x);
    TimesMono(x, hi, hi);
    TimesLaws(lo, x, 0.0);
    TimesLaws(x, hi, 0.0);
  }

  /** Bounds for one column from bounds for the one before. */
  lemma Bracket(idx: nat, j: nat, lo: real, hi: real, low: real, high: real)
    requires 0.0 <= lo <= Column(idx, j) <= hi && low <= lo * lo && hi * hi <= high
    ensures low <= Column(idx, j + 1) <= high
  {
    Square(Column(idx, j), lo, hi);
  }

  lemma ColumnZero(idx: nat)
    ensures Column(idx, 0) == Ratio(idx)
  {
  }

  /** The table entry is the exact value on the 128-point scale, rounded down. */
  ghost predicate InTable(idx: nat, j: nat)
    requires idx < CPU_LOAD_IDX_MAX && j <= DEGRADE_SHIFT
  {
    Factor(idx, j) as real <= 128.0 * Column(idx, j) < Factor(idx, j) as real + 1.0
  }

  lemma Row1()
    ensures forall j :: 0 <= j <= DEGRADE_SHIFT ==> InTable(1, j)
    ensures 0.0 <= Column(1, 3) <= 0.0078125
  {
    hide Column, Times, Pow2;
    ColumnZero(1);
    Ratios();
    Bracket(1, 0, 0.5, 0.5, 0.25, 0.25);
    Bracket(1, 1, 0.25, 0.25, 0.0625, 0.0625);
    Bracket(1, 2, 0.0625, 0.0625, 0.003906, 0.003907);
    Bracket(1, 3, 0.003906, 0.003907, 0.000015, 0.000016);
    Bracket(1, 4, 0.000015, 0.000016, 0.0, 0.000001);
    Bracket(1, 5, 0.0, 0.000001, 0.0, 0.000001);
    Bracket(1, 6, 0.0, 0.000001, 0.0, 0.000001);
  }

  lemma Row2()
    ensures forall j :: 0 <= j <= DEGRADE_SHIFT ==> InTable(2, j)
    ensures 0.0 <= Column(2, 5) <= 0.0078125
  {
    hide Column, Times, Pow2;
    ColumnZero(2);
    Ratios();
    Bracket(2, 0, 0.75, 0.75, 0.5625, 0.5625);
    Bracket(2, 1, 0.5625, 0.5625, 0.316406, 0.316407);
    Bracket(2, 2, 0.316406, 0.316407, 0.100112, 0.100114);
    Bracket(2, 3, 0.100112, 0.100114, 0.010022, 0.010023);
    Bracket(2, 4, 0.010022, 0.010023, 0.0001, 0.000101);
    Bracket(2, 5, 0.0001, 0.000101, 0.0, 0.000001);
    Bracket(2, 6, 0.0, 0.000001, 0.0, 0.000001);
  }

  lemma Row3()
    ensures forall j :: 0 <= j <= DEGRADE_SHIFT ==> InTable(3, j)
    ensures 0.0 <= Column(3, 6) <= 0.0078125
  {
    hide Column, Times, Pow2;
    ColumnZero(3);
    Ratios();
    Bracket(3, 0, 0.875, 0.875, 0.765625, 0.765625);
    Bracket(3, 1, 0.765625, 0.765625, 0.586181, 0.586182);
    Bracket(3, 2, 0.586181, 0.586182, 0.343608, 0.34361);
    Bracket(3, 3, 0.343608, 0.34361, 0.118066, 0.118068);
    Bracket(3, 4, 0.118066, 0.118068, 0.013939, 0.013941);
    Bracket(3, 5, 0.013939, 0.013941, 0.000194, 0.000195);
    Bracket(3, 6, 0.000194, 0.000195, 0.0, 0.000001);
  }

  lemma Row4()
    ensures forall j :: 0 <= j <= DEGRADE_SHIFT ==> InTable(4, j)
    ensures 0.0 <= Column(4, 7) <= 0.0078125
  {
    hide Column, Times, Pow2;
    ColumnZero(4);
    Ratios();
    Bracket(4, 0, 0.9375, 0.9375, 0.878906, 0.878907);
    Bracket(4, 1, 0.878906, 0.878907, 0.772475, 0.772478);
    Bracket(4, 2, 0.772475, 0.772478, 0.596717, 0.596723);
    Bracket(4, 3, 0.596717, 0.596723, 0.356071, 0.356079);
    Bracket(4, 4, 0.356071, 0.356079, 0.126786, 0.126793);
    Bracket(4, 5, 0.126786, 0.126793, 0.016074, 0.016077);
    Bracket(4, 6, 0.016074, 0.016077, 0.000258, 0.000259);
  }

  lemma {:induction false} Row0(j: nat)
    ensures Column(0, j) == 0.0
  {
    if j == 0 {
      Ratios();
    } else {
      Row0(j - 1);
      TimesUnits(0.0);
    }
  }

  lemma TableRow(idx: nat, j: nat)
    requires idx < CPU_LOAD_IDX_MAX && j <= DEGRADE_SHIFT
    ensures InTable(idx, j) && 0.0 <= Column(idx, j) <= 1.0
  {
    hide Column;
    ColumnUnit(idx, j);
    match idx
    case 0 => Row0(j);
    case 1 => Row1();
    case 2 => Row2();
    case 3 => Row3();
    case _ => Row4();
  }

  lemma {:induction false} ColumnUnit(idx: nat, j: nat)
    requires idx < CPU_LOAD_IDX_MAX
    ensures 0.0 <= Column(idx, j) <= 1.0
  {
    if j == 0 {
      Ratios();
    } else {
      ColumnUnit(idx, j - 1);
      UnitProduct(Column(idx, j - 1), Column(idx, j - 1));
    }
  }

  // ----- one look-up

  /** One look-up on a load that is at most `gap` below the exact one. */
  lemma LookUp(load: nat, f: nat, exact: real, x: real, gap: real, top: real)
    requires 0.0 <= x <= 1.0 && f as real <= 128.0 * x <= f as real + 1.0
    requires 0.0 <= exact - load as real <= gap && exact <= top
    ensures 0.0 <= Times(exact, x) - Degrade(load, f) as real <= gap + (top / 128.0 + 1.0)
    ensures Times(exact, x) <= exact
  {
    var l, y := load as real, f as real / 128.0;
    Floor(load, f);
    Split(exact, l, x, y);
    Within(exact - l, x);
    Within(l, 128.0 * (x - y));
    Within(exact, x);
    assert Times(l, 128.0 * (x - y)) == 128.0 * Times(l, x - y) by {
      Scale128(l, x - y);
    }
    hide Times, Degrade;
  }

  lemma Scale128(a: real, b: real)
    ensures Times(a, 128.0 * b) == 128.0 * Times(a, b)
  {
  }

  lemma Split(exact: real, l: real, x: real, y: real)
    ensures Times(exact, x) == Times(exact - l, x) + Times(l, x - y) + Times(l, y)
  {
    hide Times;
    TimesLaws(exact, l, x);
    TimesLaws(x, y, l);
    TimesLaws(x - y, l, 0.0);
    TimesLaws(x, l, 0.0);
    TimesLaws(y, l, 0.0);
  }

  /** A part of something non-negative. */
  lemma Within(a: real, x: real)
    requires a >= 0.0 && 0.0 <= x <= 1.0
    ensures 0.0 <= Times(a, x) <= a
  {
    hide Times;
    TimesSign(a, x);
    TimesMono(x, 1.0, a);
    TimesLaws(a, x, 0.0);
    TimesUnits(a);
  }

  lemma Floor(load: nat, f: nat)
    ensures 0.0 <= Times(load as real, f as real / 128.0) - Degrade(load, f) as real <= 1.0
  {
    var p := Product(load, f);
    assert 128 * (p / 128) <= p < 128 * (p / 128) + 128;
    IntTimes(load, f);
    Scale128(load as real, f as real / 128.0);
  }

  // ----- all look-ups

  ghost function Allowance(bits: nat, top: real): real
  {
    Times(bits as real, top / 128.0 + 1.0)
  }

  lemma AllowanceStep(bits: nat, top: real)
    ensures Allowance(bits + 1, top) == Allowance(bits, top) + (top / 128.0 + 1.0)
    ensures Allowance(0, top) == 0.0
    ensures top >= 0.0 ==> Allowance(bits, top) >= 0.0
  {
  }

  lemma {:induction false} LoopNear(load: nat, exact: real, gap: real, top: real, missed: nat, idx: nat, j: nat)
    requires 2 <= idx < CPU_LOAD_IDX_MAX && j <= DEGRADE_SHIFT && missed < Pow2(DEGRADE_SHIFT - j)
    requires 0.0 <= exact - load as real <= gap && exact <= top
    ensures 0.0 <= Times(exact, Power(Column(idx, j), missed)) - DecayLoop(load, missed, idx, j) as real
                <= gap + Allowance(Bits(missed), top)
    decreases missed
  {
    hide Times, Pow2, Factor, Degrade, Column, Allowance, Power, InTable;
    AllowanceStep(Bits(missed / 2), top);
    if missed == 0 {
      PowerStart(exact, Column(idx, j));
    } else {
      HalfBelow(missed, DEGRADE_SHIFT - j);
      TableRow(idx, j);
      var x, half := Column(idx, j), missed / 2;
      ColumnTurn(idx, j, missed, exact);
      if missed % 2 == 1 {
        TableLookUp(load, exact, gap, top, idx, j);
        LoopNear(Degrade(load, Factor(idx, j)), Times(exact, x), gap + (top / 128.0 + 1.0), top, half, idx, j + 1);
      } else {
        LoopNear(load, exact, gap, top, half, idx, j + 1);
      }
    }
  }

  lemma PowerStart(exact: real, x: real)
    ensures Times(exact, Power(x, 0)) == exact
  {
  }

  lemma TableLookUp(load: nat, exact: real, gap: real, top: real, idx: nat, j: nat)
    requires 2 <= idx < CPU_LOAD_IDX_MAX && j < DEGRADE_SHIFT
    requires 0.0 <= exact - load as real <= gap && exact <= top
    ensures 0.0 <= Times(exact, Column(idx, j)) - Degrade(load, Factor(idx, j)) as real <= gap + (top / 128.0 + 1.0)
    ensures Times(exact, Column(idx, j)) <= top
  {
    hide Times, Factor, Degrade, Column;
    TableRow(idx, j);
    LookUp(load, Factor(idx, j), exact, Column(idx, j), gap, top);
  }

  /** What one turn of the loop leaves of the exact decay. */
  lemma ColumnTurn(idx: nat, j: nat, missed: nat, exact: real)
    requires missed > 0
    ensures Times(exact, Power(Column(idx, j), missed))
         == Times(if missed % 2 == 1 then Times(exact, Column(idx, j)) else exact,
                  Power(Column(idx, j + 1), missed / 2))
  {
    hide Times, Power, Column;
    var x := Column(idx, j);
    NextColumn(idx, j);
    PowerHalve(x, missed);
    var rest := Power(Column(idx, j + 1), missed / 2);
    TimesUnits(rest);
    TimesLaws(exact, x, rest);
  }

  lemma NextColumn(idx: nat, j: nat)
    ensures Column(idx, j + 1) == Times(Column(idx, j), Column(idx, j))
  {
  }

  // ----- beyond the table

  lemma {:induction false} PowerColumn(idx: nat, j: nat, k: nat)
    ensures Power(Column(idx, j), Pow2(k)) == Column(idx, j + k)
    decreases k
  {
    if k == 0 {
      TimesUnits(Column(idx, j));
      assert Power(Column(idx, j), 1) == Times(Column(idx, j), Power(Column(idx, j), 0));
    } else {
      PowerSquare(Column(idx, j), Pow2(k - 1));
      NextColumn(idx, j);
      PowerColumn(idx, j + 1, k - 1);
    }
  }

  lemma {:induction false} PowerFalls(x: real, m: nat, n: nat)
    requires 0.0 <= x <= 1.0 && m <= n
    ensures 0.0 <= Power(x, n) <= Power(x, m)
    decreases n
  {
    PowerUnit(x, n);
    if m < n {
      PowerFalls(x, m, n - 1);
      Within(Power(x, n - 1), x);
      TimesLaws(Power(x, n - 1), x, 0.0);
    }
  }

  /** From the tick on at which a load counts as gone, less than a 128th of it would be left. */
  lemma Gone(missed: nat, idx: nat)
    requires idx < CPU_LOAD_IDX_MAX && missed > 0 && missed >= ZERO_TICKS[idx]
    ensures 0.0 <= Power(Ratio(idx), missed) <= 1.0 / 128.0
  {
    hide Column, Times, Power, Ratio;
    Ratios();
    ColumnZero(idx);
    if idx == 0 {
      PowerFalls(0.0, 1, missed);
      PowerOne(0.0);
    } else {
      var k := if idx == 1 then 3 else idx + 3;
      assert ZERO_TICKS[idx] == Pow2(k) by {
        assert Pow2(3) == 8 && Pow2(5) == 32 && Pow2(6) == 64 && Pow2(7) == 128;
      }
      PowerColumn(idx, 0, k);
      PowerFalls(Ratio(idx), Pow2(k), missed);
      Row1();
      Row2();
      Row3();
      Row4();
    }
  }

  lemma PowerOne(x: real)
    ensures Power(x, 1) == x
  {
    TimesUnits(x);
    assert Power(x, 1) == Times(x, Power(x, 0));
  }

  // ----- the row that is a shift

  lemma {:induction false} HalfPower(n: nat)
    ensures Times(Power(0.5, n), Pow2(n) as real) == 1.0
  {
    if n > 0 {
      HalfPower(n - 1);
      var p, q := Power(0.5, n - 1), Pow2(n - 1) as real;
      assert Power(0.5, n) == 0.5 * p && Pow2(n) as real == 2.0 * q;
      Halves(p, q);
    }
  }

  lemma Halves(p: real, q: real)
    ensures Times(0.5 * p, 2.0 * q) == Times(p, q)
  {
  }

  /** A shift is the exact value rounded down. */
  lemma ShiftNear(load: nat, missed: nat)
    ensures 0.0 <= Times(load as real, Power(0.5, missed)) - (load / Pow2(missed)) as real <= 1.0
  {
    hide Power, Pow2, Times;
    HalfPower(missed);
    PowerUnit(0.5, missed);
    FloorNear(load, Pow2(missed), load / Pow2(missed), Power(0.5, missed));
  }

  /** With p the inverse of d: a quotient is the exact value rounded down. */
  lemma FloorNear(load: nat, d: nat, q: nat, p: real)
    requires d > 0 && q == load / d && p >= 0.0 && Times(p, d as real) == 1.0
    ensures 0.0 <= Times(load as real, p) - q as real <= 1.0
  {
    DivFacts(load, d, q);
    IntTimes(q, d);
    RealFloor(load as real, d as real, q as real, p);
  }

  lemma RealFloor(l: real, d: real, q: real, p: real)
    requires p >= 0.0 && Times(p, d) == 1.0 && Times(q, d) <= l <= Times(q, d) + d
    ensures 0.0 <= Times(l, p) - q <= 1.0
  {
    hide Times;
    TimesMono(Times(q, d), l, p);
    TimesMono(l, Times(q, d) + d, p);
    TimesLaws(Times(q, d), d, p);
    TimesLaws(q, d, p);
    TimesLaws(d, p, 0.0);
    TimesUnits(q);
  }

  lemma {:induction false} SomeBit(n: nat)
    requires n > 0
    ensures Bits(n) > 0
  {
    if n > 1 {
      SomeBit(n / 2);
    }
  }

  lemma GoneNear(load: nat, missed: nat, idx: nat)
    requires idx < CPU_LOAD_IDX_MAX && missed > 0 && missed >= ZERO_TICKS[idx]
    ensures 0.0 <= Times(load as real, Power(Ratio(idx), missed)) <= load as real / 128.0 + 1.0
  {
    hide Times, Pow2, Column, Ratio, Power;
    Gone(missed, idx);
    PartOf(load as real, Power(Ratio(idx), missed));
  }

  lemma PartOf(l: real, x: real)
    requires l >= 0.0 && 0.0 <= x <= 1.0 / 128.0
    ensures 0.0 <= Times(l, x) <= l / 128.0
  {
    Within(l, 128.0 * x);
    Scale128(l, x);
  }

  /** `decay_load_missed` never exceeds the exact decay and falls short of it by at most a 128th of the load and one
      unit for every look-up it makes, for every load, row and number of missed ticks. */
  lemma DecayNear(load: nat, missed: nat, idx: nat)
    requires idx < CPU_LOAD_IDX_MAX
    ensures 0.0 <= Times(load as real, Power(Ratio(idx), missed)) - Decay(load, missed, idx) as real
                <= Allowance(Bits(missed), load as real)
  {
    hide Times, Pow2, Column, Ratio, Power, Allowance, Bits, DecayLoop;
    var l := load as real;
    if missed == 0 {
      PowerStart(l, Ratio(idx));
      AllowanceStep(Bits(0), l);
    } else {
      OneLookUp(missed, l);
      if missed >= ZERO_TICKS[idx] {
        GoneNear(load, missed, idx);
      } else if idx == 1 {
        Ratios();
        ShiftNear(load, missed);
      } else {
        TableDepth();
        ColumnZero(idx);
        LoopNear(load, l, 0.0, l, missed, idx, 0);
      }
    }
  }

  lemma OneLookUp(missed: nat, l: real)
    requires missed > 0 && l >= 0.0
    ensures Allowance(Bits(missed), l) >= l / 128.0 + 1.0
  {
    SomeBit(missed);
    AllowanceStep(Bits(missed) - 1, l);
  }
}
