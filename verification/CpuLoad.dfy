/**
 The per-CPU load statistics `cpu_load[]`: five averages of growing inertia, updated every tick, and the
 table-driven decay that stands in for the ticks an idle CPU missed.
 */
module CpuLoad {
  import opened Basics

  const CPU_LOAD_IDX_MAX := 5
  const DEGRADE_SHIFT := 7
  const JIFFY_WRAP: nat := 0x1_0000_0000

  const ZERO_TICKS: seq<nat> := [0, 8, 32, 64, 128]

  function Factor(idx: nat, j: nat): nat
    requires idx < CPU_LOAD_IDX_MAX && j <= DEGRADE_SHIFT
  {
    [[0, 0, 0, 0, 0, 0, 0, 0],
     [64, 32, 8, 0, 0, 0, 0, 0],
     [96, 72, 40, 12, 1, 0, 0, 0],
     [112, 98, 75, 43, 15, 1, 0, 0],
     [120, 112, 98, 76, 45, 16, 2, 0]][idx][j]
  }

  /** `(load * factor) >> DEGRADE_SHIFT`. */
  function Degrade(load: nat, f: nat): nat
  {
    Product(load, f) / 128
  }

  /** The value after the loop of `decay_load_missed` from column j on. */
  function DecayLoop(load: nat, missed: nat, idx: nat, j: nat): nat
    requires idx < CPU_LOAD_IDX_MAX && j <= DEGRADE_SHIFT && missed < Pow2(DEGRADE_SHIFT - j)
    decreases missed
  {
    hide Pow2;
    if missed == 0 then load
    else
      HalfBelow(missed, DEGRADE_SHIFT - j);
      DecayLoop(if missed % 2 == 1 then Degrade(load, Factor(idx, j)) else load, missed / 2, idx, j + 1)
  }

  /** `decay_load_missed`. */
  function Decay(load: nat, missed: nat, idx: nat): nat
    requires idx < CPU_LOAD_IDX_MAX
  {
    hide Pow2;
    if missed == 0 then load
    else if missed >= ZERO_TICKS[idx] then 0
    else if idx == 1 then load / Pow2(missed)
    else
      TableDepth();
      DecayLoop(load, missed, idx, 0)
  }

  lemma TableDepth()
    ensures Pow2(DEGRADE_SHIFT) == 128
  {
    assert Pow2(3) == 8 && Pow2(5) == 32 && Pow2(7) == 128;
  }

  /** The loop never leaves the table: column j is read only while bits remain. */
  method DecayLoadMissed(load0: nat, missed0: nat, idx: nat) returns (load: nat)
    requires idx < CPU_LOAD_IDX_MAX
    ensures load == Decay(load0, missed0, idx)
  {
    hide Pow2, Factor, Degrade;
    load := load0;
    if missed0 == 0 {
      return;
    }
    if missed0 >= ZERO_TICKS[idx] {
      return 0;
    }
    if idx == 1 {
      return load / Pow2(missed0);
    }
    TableDepth();
    var missed: nat, j: nat := missed0, 0;
    while missed != 0
      invariant j <= DEGRADE_SHIFT && missed < Pow2(DEGRADE_SHIFT - j)
      invariant DecayLoop(load, missed, idx, j) == DecayLoop(load0, missed0, idx, 0)
      decreases missed
    {
      HalfBelow(missed, DEGRADE_SHIFT - j);
      if missed % 2 == 1 {
        load := Degrade(load, Factor(idx, j));
      }
      missed := missed / 2;
      j := j + 1;
    }
  }

  lemma FactorBelow(idx: nat, j: nat)
    requires idx < CPU_LOAD_IDX_MAX && j <= DEGRADE_SHIFT
    ensures Factor(idx, j) <= 128
  {
  }

  lemma ScaleDown(a: nat, b: nat, f: nat)
    requires a <= b && f <= 128
    ensures Degrade(a, f) <= Degrade(b, f) && Degrade(a, f) <= a
  {
    assert a * f <= b * f && a * f <= a * 128;
  }

  lemma {:induction false} DecayLoopMono(a: nat, b: nat, missed: nat, idx: nat, j: nat)
    requires idx < CPU_LOAD_IDX_MAX && j <= DEGRADE_SHIFT && missed < Pow2(DEGRADE_SHIFT - j) && a <= b
    ensures DecayLoop(a, missed, idx, j) <= DecayLoop(b, missed, idx, j)
    ensures DecayLoop(a, missed, idx, j) <= a
    decreases missed
  {
    hide Factor, Degrade, Pow2;
    if missed != 0 {
      HalfBelow(missed, DEGRADE_SHIFT - j);
      FactorBelow(idx, j);
      ScaleDown(a, b, Factor(idx, j));
      if missed % 2 == 1 {
        DecayLoopMono(Degrade(a, Factor(idx, j)), Degrade(b, Factor(idx, j)), missed / 2, idx, j + 1);
      } else {
        DecayLoopMono(a, b, missed / 2, idx, j + 1);
      }
    }
  }

  lemma ProdMono(a: nat, b: nat, k: nat)
    requires a <= b
    ensures Product(a, k) <= Product(b, k) && Product(k, a) <= Product(k, b)
  {
  }

  lemma DivFacts(a: nat, d: nat, q: nat)
    requires d > 0 && q == a / d
    ensures Product(q, d) <= a < Product(q, d) + d && Product(q + 1, d) == Product(q, d) + d && Product(q, 1) == q
  {
  }

  lemma DivMono(a: nat, b: nat, d: nat)
    requires d > 0 && a <= b
    ensures a / d <= b / d && a / d <= a
  {
    var q, r := a / d, b / d;
    DivFacts(a, d, q);
    DivFacts(b, d, r);
    ProdMono(1, d, q);
    hide Product;
    if q > r {
      ProdMono(r + 1, q, d);
      assert false;
    }
  }

  /** For every table row and every number of missed ticks, decay never raises a load and keeps loads in order. */
  lemma DecayMono(a: nat, b: nat, missed: nat, idx: nat)
    requires idx < CPU_LOAD_IDX_MAX && a <= b
    ensures Decay(a, missed, idx) <= Decay(b, missed, idx) && Decay(a, missed, idx) <= a
  {
    hide Pow2;
    if missed != 0 && missed < ZERO_TICKS[idx] {
      if idx == 1 {
        DivMono(a, b, Pow2(missed));
      } else {
        TableDepth();
        DecayLoopMono(a, b, missed, idx, 0);
      }
    }
  }

  // ----- the averages

  /** One entry of `update_cpu_load`, pending jiffies after the last update. */
  function NewLoad(was: nat, load: nat, pending: nat, i: nat): nat
    requires 0 < i < CPU_LOAD_IDX_MAX && pending > 0
  {
    var before := Decay(was, pending - 1, i);
    Average(before, load, Pow2(i))
  }

  /** Weighted mean with weight scale - 1 on the past, rounded up while the load is rising. */
  function Average(before: nat, load: nat, scale: nat): nat
    requires scale > 0
  {
    (Product(before, scale - 1) + (if load > before then load + scale - 1 else load)) / scale
  }

  lemma Scale(i: nat)
    requires 0 < i < CPU_LOAD_IDX_MAX
    ensures Pow2(i) in {2, 4, 8, 16}
  {
    assert Pow2(1) == 2 && Pow2(2) == 4 && Pow2(3) == 8 && Pow2(4) == 16;
  }

  /** An entry's new value is the mean of what is left of the old one after the missed ticks, with weight 2^i - 1, and
      the load, rounded up when the load is above it and down otherwise. */
  lemma AverageExact(was: nat, load: nat, pending: nat, i: nat, scale: nat)
    requires 0 < i < CPU_LOAD_IDX_MAX && pending > 0 && scale == Pow2(i)
    ensures var left := Decay(was, pending - 1, i);
            var exact := left * (scale - 1) + load;
            var mean := NewLoad(was, load, pending, i);
            if load > left then exact <= scale * mean < exact + scale else exact - scale < scale * mean <= exact
  {
    hide Decay, Pow2;
    Scale(i);
    var left := Decay(was, pending - 1, i);
    MeanIs(left, load, scale);
  }

  lemma MeanIs(left: nat, load: nat, scale: nat)
    requires scale in {2, 4, 8, 16}
    ensures var exact := left * (scale - 1) + load;
            var mean := Average(left, load, scale);
            if load > left then exact <= scale * mean < exact + scale else exact - scale < scale * mean <= exact
  {
    if scale == 2 {
    } else if scale == 4 {
    } else if scale == 8 {
    } else {
      assert scale == 16;
    }
  }

  /** With one update per jiffy an average moves strictly towards the load, never past it. */
  lemma OneTick(was: nat, load: nat, i: nat)
    requires 0 < i < CPU_LOAD_IDX_MAX
    ensures was < load ==> was < NewLoad(was, load, 1, i) <= load
    ensures was > load ==> was > NewLoad(was, load, 1, i) >= load
    ensures was == load ==> NewLoad(was, load, 1, i) == load
  {
    Scale(i);
    var s := Pow2(i);
    hide Pow2;
    if s == 2 {
    } else if s == 4 {
    } else if s == 8 {
    } else {
      assert s == 16;
    }
  }

  function Ticks(was: nat, load: nat, i: nat, n: nat): nat
    requires 0 < i < CPU_LOAD_IDX_MAX
  {
    if n == 0 then was else NewLoad(Ticks(was, load, i, n - 1), load, 1, i)
  }

  /** Under a constant load every average is exact after at most as many ticks as it was units away. */
  lemma {:induction false} ReachesLoad(was: nat, load: nat, i: nat, n: nat)
    requires 0 < i < CPU_LOAD_IDX_MAX
    ensures was <= load ==> was <= Ticks(was, load, i, n) <= load
    ensures was >= load ==> load <= Ticks(was, load, i, n) <= was
    ensures was <= load ==> Ticks(was, load, i, n) == load || Ticks(was, load, i, n) >= was + n
    ensures was >= load ==> Ticks(was, load, i, n) == load || Ticks(was, load, i, n) + n <= was
    ensures n >= was && n >= load ==> Ticks(was, load, i, n) == load
  {
    if n > 0 {
      hide NewLoad;
      ReachesLoad(was, load, i, n - 1);
      OneTick(Ticks(was, load, i, n - 1), load, i);
    }
  }

  lemma Doubles(i: nat)
    requires i > 0
    ensures Pow2(i) == Pow2(i - 1) + Pow2(i - 1) && Pow2(0) == 1
  {
  }

  lemma NewLoadIs(was: nat, load: nat, pending: nat, i: nat)
    requires 0 < i < CPU_LOAD_IDX_MAX && pending > 0
    ensures var before, scale := Decay(was, pending - 1, i), Pow2(i);
            NewLoad(was, load, pending, i) ==
            (Product(before, scale - 1) + (if load > before then load + scale - 1 else load)) / scale
  {
  }

  class LoadStats {
    var cpuLoad: array<nat>
    var lastLoadUpdateTick: nat
    var nrLoadUpdates: nat

    ghost predicate Valid()
      reads this
    {
      cpuLoad.Length == CPU_LOAD_IDX_MAX && lastLoadUpdateTick < JIFFY_WRAP
    }

    /** `update_cpu_load`. */
    method UpdateCpuLoad(thisLoad: nat, jiffies: nat)
      requires Valid() && jiffies < JIFFY_WRAP
      modifies this, cpuLoad
      ensures Valid() && cpuLoad == old(cpuLoad) && lastLoadUpdateTick == jiffies
      ensures nrLoadUpdates == old(nrLoadUpdates) + 1
      ensures jiffies == old(lastLoadUpdateTick) ==> cpuLoad[..] == old(cpuLoad[..])
      ensures jiffies != old(lastLoadUpdateTick) ==>
        && cpuLoad[0] == thisLoad
        && var pending := (jiffies - old(lastLoadUpdateTick)) % JIFFY_WRAP;
           && pending > 0
           && forall i :: 0 < i < CPU_LOAD_IDX_MAX ==> cpuLoad[i] == NewLoad(old(cpuLoad[i]), thisLoad, pending, i)
    {
      hide Product, Decay, NewLoad, Pow2;
      Doubles(1);
      nrLoadUpdates := nrLoadUpdates + 1;
      if jiffies == lastLoadUpdateTick {
        return;
      }
      var pending := (jiffies - lastLoadUpdateTick) % JIFFY_WRAP;
      lastLoadUpdateTick := jiffies;
      cpuLoad[0] := thisLoad;
      var i, scale := 1, 2;
      while i < CPU_LOAD_IDX_MAX
        invariant 1 <= i <= CPU_LOAD_IDX_MAX && scale == Pow2(i)
        invariant cpuLoad == old(cpuLoad) && Valid() && lastLoadUpdateTick == jiffies
        invariant nrLoadUpdates == old(nrLoadUpdates) + 1 && cpuLoad[0] == thisLoad
        invariant forall k :: 0 < k < i ==> cpuLoad[k] == NewLoad(old(cpuLoad[k]), thisLoad, pending, k)
        invariant forall k :: i <= k < CPU_LOAD_IDX_MAX ==> cpuLoad[k] == old(cpuLoad[k])
      {
        var oldLoad := DecayLoadMissed(cpuLoad[i], pending - 1, i);
        var newLoad := thisLoad;
        if newLoad > oldLoad {
          newLoad := newLoad + scale - 1;
        }
        NewLoadIs(cpuLoad[i], thisLoad, pending, i);
        cpuLoad[i] := (Product(oldLoad, scale - 1) + newLoad) / Pow2(i);
        Doubles(i + 1);
        i, scale := i + 1, scale + scale;
      }
    }
  }
}
