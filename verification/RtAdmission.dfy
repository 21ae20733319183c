/**
 RT admission control: per-group tests made by a tree walk, with 64-bit and 32-bit unsigned
 arithmetic as the target CPU has it, and the whole-tree guarantee they add up to.
 */
module RtAdmission {
  import opened Basics
  import opened TgWalk

  const RUNTIME_INF: nat := 0xFFFF_FFFF_FFFF_FFFF
  const U64: nat := 0x1_0000_0000_0000_0000
  const ULONG: nat := 0x1_0000_0000
  const RATIO_ONE: nat := 0x10_0000
  const NSEC_PER_USEC: nat := 1000
  const EINVAL := 22
  const EBUSY := 16

  /** `struct rt_bandwidth`, in nanoseconds. */
  datatype Bw = Bw(period: nat, runtime: nat)

  /** `to_ratio`: the shift drops what leaves 64 bits, the return value what leaves 32. */
  function ToRatio(b: Bw): nat
    requires b.period > 0
  {
    if b.runtime == RUNTIME_INF then RATIO_ONE else Shifted(b.runtime, RATIO_ONE, U64) / b.period % ULONG
  }

  /** `x << 20` in 64 bits, for one == 2^20 and m == 2^64. */
  function Shifted(x: nat, one: nat, m: nat): nat
    requires m > 0
  {
    (x * one) % m
  }

  function Ratio(b: Bw): nat
  {
    if b.period == 0 then 0 else ToRatio(b)
  }

  /** Cannot have more runtime than the period. */
  predicate Sane(b: Bw)
  {
    0 < b.period < U64 && b.runtime < U64 && (b.runtime <= b.period || b.runtime == RUNTIME_INF)
  }

  lemma ModFacts(x: nat, m: nat)
    requires m > 0
    ensures x % m < m && x % m <= x
    ensures x < m ==> x % m == x
    ensures x >= m ==> x % m <= x - m
  {
    assert x == m * (x / m) + x % m;
  }

  lemma DivBound(y: nat, d: nat, k: nat)
    requires d > 0 && y <= d * k
    ensures y / d <= k
  {
    var q := y / d;
    assert q > k ==> d * q >= d * (k + 1);
  }

  lemma DivLess(y: nat, x: nat, d: nat)
    requires d > 0 && y + d <= x
    ensures y / d < x / d
  {
    var q, r := x / d, y / d;
    assert q <= r ==> d * q <= d * r;
  }

  lemma ShiftedBound(runtime: nat, period: nat, one: nat, m: nat)
    requires 0 < period && runtime <= period && m > 0
    ensures Shifted(runtime, one, m) / period <= one
  {
    ModFacts(runtime * one, m);
    assert runtime * one <= period * one;
    DivBound(Shifted(runtime, one, m), period, one);
  }

  lemma ShiftedExactIff(runtime: nat, period: nat, one: nat, m: nat)
    requires 0 < period < m
    ensures Shifted(runtime, one, m) / period == runtime * one / period <==> runtime * one < m
  {
    ModFacts(runtime * one, m);
    if runtime * one >= m {
      DivLess(Shifted(runtime, one, m), runtime * one, period);
    }
  }

  /** A sane bandwidth never has a ratio above one, wrap-around included. */
  lemma SaneRatio(b: Bw)
    requires Sane(b)
    ensures Ratio(b) <= RATIO_ONE
  {
    hide Shifted;
    if b.runtime != RUNTIME_INF {
      ShiftedBound(b.runtime, b.period, RATIO_ONE, U64);
      ModFacts(Shifted(b.runtime, RATIO_ONE, U64) / b.period, ULONG);
    }
  }

  /** The ratio is the true fraction of 2^20 exactly when the shift does not overflow: below 2^44 ns. */
  lemma RatioExactIff(b: Bw)
    requires Sane(b) && b.runtime != RUNTIME_INF
    ensures Ratio(b) == b.runtime * RATIO_ONE / b.period <==> b.runtime < 0x1000_0000_0000
  {
    hide Shifted;
    ShiftedBound(b.runtime, b.period, RATIO_ONE, U64);
    ModFacts(Shifted(b.runtime, RATIO_ONE, U64) / b.period, ULONG);
    ShiftedExactIff(b.runtime, b.period, RATIO_ONE, U64);
  }

  // ----- the guarantee

  function SumRatio(kids: seq<Tree<Bw>>, n: nat): nat
    requires n <= |kids|
  {
    if n == 0 then 0 else SumRatio(kids, n - 1) + Ratio(kids[n - 1].data)
  }

  /** One group within the global limit, and its children's shares within its own. */
  predicate NodeOk(n: Tree<Bw>, limit: nat)
  {
    Sane(n.data) && Ratio(n.data) <= limit && SumRatio(n.children, |n.children|) <= Ratio(n.data)
  }

  predicate TreeOk(n: Tree<Bw>, limit: nat)
  {
    NodeOk(n, limit) && forall i :: 0 <= i < |n.children| ==> TreeOk(n.children[i], limit)
  }

  lemma {:induction false} TreeOkAt(n: Tree<Bw>, limit: nat, p: Path)
    requires TreeOk(n, limit) && Valid(n, p)
    ensures TreeOk(At(n, p), limit)
  {
    if p != [] {
      TreeOkAt(n.children[p[0]], limit, p[1..]);
    }
  }

  /** Testing every group reached by some path is testing the whole tree. */
  lemma {:induction false} TreeOkByPaths(n: Tree<Bw>, limit: nat)
    requires forall p :: Valid(n, p) ==> NodeOk(At(n, p), limit)
    ensures TreeOk(n, limit)
  {
    assert Valid(n, []) && At(n, []) == n;
    forall i | 0 <= i < |n.children|
      ensures TreeOk(n.children[i], limit)
    {
      forall p | Valid(n.children[i], p)
        ensures NodeOk(At(n.children[i], p), limit)
      {
        assert ([i] + p)[1..] == p;
        assert Valid(n, [i] + p) && At(n, [i] + p) == At(n.children[i], p);
      }
      TreeOkByPaths(n.children[i], limit);
    }
  }

  // ----- any pairwise non-nested groups together stay within the root, hence within the global limit

  ghost predicate Antichain(a: seq<Path>)
  {
    a == [] || ((forall q :: q in a[1..] ==> !(a[0] <= q) && !(q <= a[0])) && Antichain(a[1..]))
  }

  ghost predicate AllValid(t: Tree<Bw>, a: seq<Path>)
  {
    forall q :: q in a ==> Valid(t, q)
  }

  function SumOf(t: Tree<Bw>, a: seq<Path>): nat
    requires AllValid(t, a)
  {
    if a == [] then 0 else Ratio(At(t, a[0]).data) + SumOf(t, a[1..])
  }

  /** The members of a that lie below child i, as seen from that child. */
  function Tails(a: seq<Path>, i: nat): (r: seq<Path>)
    ensures forall q :: q in r ==> [i] + q in a
  {
    if a == [] then []
    else if a[0] != [] && a[0][0] == i then
      assert [i] + a[0][1..] == a[0];
      [a[0][1..]] + Tails(a[1..], i)
    else Tails(a[1..], i)
  }

  lemma {:induction false} TailsAntichain(a: seq<Path>, i: nat)
    requires Antichain(a)
    ensures Antichain(Tails(a, i))
  {
    if a != [] {
      TailsAntichain(a[1..], i);
      if a[0] != [] && a[0][0] == i {
        var p := a[0][1..];
        assert [i] + p == a[0];
        forall q | q in Tails(a[1..], i)
          ensures !(p <= q) && !(q <= p)
        {
          assert [i] + q in a[1..];
          assert p <= q ==> [i] + p <= [i] + q;
          assert q <= p ==> [i] + q <= [i] + p;
        }
      }
    }
  }

  lemma TailsValid(t: Tree<Bw>, a: seq<Path>, i: nat)
    requires AllValid(t, a) && i < |t.children|
    ensures AllValid(t.children[i], Tails(a, i))
  {
    forall q | q in Tails(a, i)
      ensures Valid(t.children[i], q)
    {
      assert ([i] + q)[1..] == q;
    }
  }

  function SumTails(t: Tree<Bw>, a: seq<Path>, n: nat): nat
    requires AllValid(t, a) && n <= |t.children|
  {
    if n == 0 then 0
    else
      TailsValid(t, a, n - 1);
      SumTails(t, a, n - 1) + SumOf(t.children[n - 1], Tails(a, n - 1))
  }

  lemma {:induction false} SumTailsCons(t: Tree<Bw>, a: seq<Path>, n: nat)
    requires a != [] && a[0] != [] && AllValid(t, a) && n <= |t.children|
    ensures SumTails(t, a, n) == SumTails(t, a[1..], n) + if a[0][0] < n then Ratio(At(t, a[0]).data) else 0
  {
    hide Ratio;
    if n > 0 {
      SumTailsCons(t, a, n - 1);
      TailsValid(t, a, n - 1);
      if a[0][0] == n - 1 {
        assert Tails(a, n - 1)[1..] == Tails(a[1..], n - 1);
      }
    }
  }

  lemma {:induction false} SumByChild(t: Tree<Bw>, a: seq<Path>)
    requires AllValid(t, a) && [] !in a
    ensures SumOf(t, a) == SumTails(t, a, |t.children|)
  {
    if a == [] {
      NoTails(t, |t.children|);
    } else {
      SumByChild(t, a[1..]);
      SumTailsCons(t, a, |t.children|);
      assert a[0] in a && Valid(t, a[0]);
      hide SumTails;
    }
  }

  lemma {:induction false} NoTails(t: Tree<Bw>, n: nat)
    requires n <= |t.children|
    ensures SumTails(t, [], n) == 0
  {
    if n > 0 {
      NoTails(t, n - 1);
    }
  }

  lemma {:induction false} SumTailsBound(t: Tree<Bw>, limit: nat, a: seq<Path>, n: nat)
    requires TreeOk(t, limit) && AllValid(t, a) && Antichain(a) && n <= |t.children|
    ensures SumTails(t, a, n) <= SumRatio(t.children, n)
    decreases t, n
  {
    hide Antichain, Tails, AllValid, NodeOk, Ratio, SumOf;
    if n > 0 {
      SumTailsBound(t, limit, a, n - 1);
      TailsValid(t, a, n - 1);
      TailsAntichain(a, n - 1);
      AntichainBound(t.children[n - 1], limit, Tails(a, n - 1));
    }
  }

  /** Any list of pairwise non-nested groups of an accepted tree has ratios that add up to at most the root's. */
  lemma {:induction false} AntichainBound(t: Tree<Bw>, limit: nat, a: seq<Path>)
    requires TreeOk(t, limit) && AllValid(t, a) && Antichain(a)
    ensures SumOf(t, a) <= Ratio(t.data) <= limit
    decreases t, |t.children| + 1
  {
    if [] in a {
      RootAlone(a);
      assert a[1..] == [];
    } else {
      SumByChild(t, a);
      SumTailsBound(t, limit, a, |t.children|);
    }
  }

  lemma HeadIn<T>(s: seq<T>)
    ensures s != [] ==> s[0] in s
  {
  }

  /** The root is nested with everything. */
  lemma {:induction false} RootAlone(a: seq<Path>)
    requires Antichain(a) && [] in a
    ensures a == [[]]
  {
    HeadIn(a[1..]);
    var first, rest := a[0], a[1..];
    assert a == [first] + rest;
    assert first == [] || [] in rest;
  }

  // ----- what the ratios say about the runtimes themselves

  /** A `long` of microseconds: what a runtime that is not unlimited can be set to. */
  const MAX_RUNTIME: nat := 0x8000_0000 * NSEC_PER_USEC

  predicate Fits(b: Bw)
  {
    b.runtime == RUNTIME_INF || b.runtime < MAX_RUNTIME
  }

  predicate TreeFits(t: Tree<Bw>)
  {
    Fits(t.data) && forall i :: 0 <= i < |t.children| ==> TreeFits(t.children[i])
  }

  lemma {:induction false} TreeFitsAt(t: Tree<Bw>, p: Path)
    requires TreeFits(t) && Valid(t, p)
    ensures Fits(At(t, p).data)
    decreases |p|
  {
    if p != [] {
      TreeFitsAt(t.children[p[0]], p[1..]);
    }
  }

  /** The part of the time a group may use; unlimited is all of it. */
  ghost function TimeShare(b: Bw): real
    requires b.period > 0
  {
    if b.runtime == RUNTIME_INF then 1.0 else b.runtime as real / b.period as real
  }

  /** The computed ratio falls short of the true share by less than one unit of 2^20. */
  lemma ShareBelow(b: Bw)
    requires Sane(b) && Fits(b)
    ensures TimeShare(b) * 1048576.0 < Ratio(b) as real + 1.0
  {
    if b.runtime != RUNTIME_INF {
      RatioExactIff(b);
      var q := b.runtime * RATIO_ONE / b.period;
      QuotientAbove(b.runtime * RATIO_ONE, b.period, q);
      RealQuotient(b.runtime as real, b.period as real, q as real);
    }
  }

  lemma QuotientAbove(y: nat, d: nat, q: nat)
    requires d > 0 && q == y / d
    ensures y < (q + 1) * d
  {
  }

  lemma RealQuotient(r: real, p: real, q: real)
    requires p > 0.0 && r * 1048576.0 < (q + 1.0) * p
    ensures r / p * 1048576.0 < q + 1.0
  {
    var x := r / p;
    assert x * p == r;
    assert (x * 1048576.0) * p == (x * p) * 1048576.0;
    RealMono(q + 1.0, x * 1048576.0, p);
  }

  lemma RealMono(a: real, b: real, k: real)
    requires k > 0.0
    ensures a <= b ==> a * k <= b * k
  {
  }

  ghost function SumShare(t: Tree<Bw>, a: seq<Path>): real
    requires AllValid(t, a) && forall q :: q in a ==> At(t, q).data.period > 0
  {
    if a == [] then 0.0 else TimeShare(At(t, a[0]).data) + SumShare(t, a[1..])
  }

  /** In an accepted tree the true shares of pairwise non-nested groups add up to less than the limit plus one unit of
      2^20 for each of them. */
  lemma SharesBound(t: Tree<Bw>, limit: nat, a: seq<Path>)
    requires TreeOk(t, limit) && TreeFits(t) && AllValid(t, a) && Antichain(a) && a != []
    ensures forall q :: q in a ==> At(t, q).data.period > 0
    ensures SumShare(t, a) * 1048576.0 < (limit + |a|) as real
  {
    hide TreeOk, TreeFits, Antichain;
    forall q | q in a
      ensures Sane(At(t, q).data)
    {
      TreeSaneAt(t, limit, q);
    }
    SharesBelow(t, limit, a);
    AntichainBound(t, limit, a);
  }

  lemma TreeSaneAt(t: Tree<Bw>, limit: nat, p: Path)
    requires TreeOk(t, limit) && Valid(t, p)
    ensures Sane(At(t, p).data)
  {
    TreeOkAt(t, limit, p);
  }

  lemma {:induction false} SharesBelow(t: Tree<Bw>, limit: nat, a: seq<Path>)
    requires TreeOk(t, limit) && TreeFits(t) && AllValid(t, a) && forall q :: q in a ==> At(t, q).data.period > 0
    ensures SumShare(t, a) * 1048576.0 <= (SumOf(t, a) + |a|) as real
    ensures a != [] ==> SumShare(t, a) * 1048576.0 < (SumOf(t, a) + |a|) as real
    decreases |a|
  {
    hide TreeOk, TreeFits, TimeShare, Ratio, Sane, Fits;
    if a != [] {
      assert a[0] in a;
      TreeSaneAt(t, limit, a[0]);
      TreeFitsAt(t, a[0]);
      ShareBelow(At(t, a[0]).data);
      SharesBelow(t, limit, a[1..]);
    }
  }
}
