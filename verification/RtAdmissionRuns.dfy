/**
 The operations that change RT bandwidth settings, each guarded by the walk, and their runs.
 */
module RtAdmissionRuns {
  import opened Basics
  import opened TgWalk
  import opened RtAdmission

  /** The settings: the group tree, the two sysctls, and the period new groups start with. */
  datatype Sys = Sys(root: Tree<Bw>, sysPeriod: nat, sysRuntime: int, defPeriod: nat)

  /** The candidate change a walk is made for (`struct rt_schedulable_data`), and the tasks' say (`tg_has_rt_tasks`). */
  datatype Query = Query(tg: Option<Path>, bw: Bw, busy: Path -> bool)

  function GlobalBw(s: Sys): Bw
  {
    Bw(s.sysPeriod * NSEC_PER_USEC, if s.sysRuntime < 0 then RUNTIME_INF else s.sysRuntime * NSEC_PER_USEC)
  }

  function Limit(s: Sys): nat
  {
    Ratio(GlobalBw(s))
  }

  /** The global limit is the part of the period the sysctls leave to RT tasks, in units of 2^20 and rounded down; it is
      all of it for a negative runtime. */
  lemma LimitIs(s: Sys)
    requires 0 < s.sysPeriod < 0x1_0000_0000 && s.sysRuntime <= s.sysPeriod && s.sysRuntime < 0x8000_0000
    ensures Limit(s) == if s.sysRuntime < 0 then 0x10_0000 else s.sysRuntime * 0x10_0000 / s.sysPeriod
  {
    if s.sysRuntime >= 0 {
      RatioExactIff(GlobalBw(s));
      CancelThousand(s.sysRuntime * 0x10_0000, s.sysPeriod);
    }
  }

  lemma CancelThousand(a: nat, b: nat)
    requires b > 0
    ensures (a * 1000) / (b * 1000) == a / b
  {
    var q, r := a / b, a % b;
    assert a == b * q + r;
    assert a * 1000 == (b * 1000) * q + r * 1000;
    QuotientIs(a * 1000, b * 1000, q, r * 1000);
  }

  lemma QuotientIs(x: nat, d: nat, q: nat, r: nat)
    requires d > 0 && r < d && x == d * q + r
    ensures x / d == q
  {
    var k := x / d;
    assert d * k <= x < d * k + d;
    assert k < q ==> d * (k + 1) <= d * q;
    assert k > q ==> d * (q + 1) <= d * k;
  }

  function Effective(t: Tree<Bw>, q: Query, p: Path): Bw
    requires Valid(t, p)
  {
    if q.tg == Some(p) then q.bw else At(t, p).data
  }

  /** The children's ratios added up in an `unsigned long`. */
  function Sum32(t: Tree<Bw>, q: Query, p: Path, n: nat): (r: nat)
    requires Valid(t, p) && n <= |At(t, p).children|
    ensures r < ULONG
  {
    if n == 0 then 0
    else
      ChildValid(t, p, n - 1);
      (Sum32(t, q, p, n - 1) + Ratio(Effective(t, q, p + [n - 1]))) % ULONG
  }

  /** `tg_rt_schedulable`. */
  function Check(t: Tree<Bw>, q: Query, limit: nat, enabled: bool, p: Path): int
    requires Valid(t, p)
  {
    var b := Effective(t, q, p);
    if b.runtime > b.period && b.runtime != RUNTIME_INF then -EINVAL
    else if enabled && b.runtime == 0 && q.busy(p) then -EBUSY
    else if Ratio(b) > limit then -EINVAL
    else if Sum32(t, q, p, |At(t, p).children|) > Ratio(b) then -EINVAL
    else 0
  }

  /** The visitor with its loop over the children. */
  method TgRtSchedulable(t: Tree<Bw>, q: Query, limit: nat, enabled: bool, p: Path) returns (ret: int)
    requires Valid(t, p)
    ensures ret == Check(t, q, limit, enabled, p)
  {
    var b := Effective(t, q, p);
    if b.runtime > b.period && b.runtime != RUNTIME_INF {
      return -EINVAL;
    }
    if enabled && b.runtime == 0 && q.busy(p) {
      return -EBUSY;
    }
    if Ratio(b) > limit {
      return -EINVAL;
    }
    var sum := 0;
    for i := 0 to |At(t, p).children|
      invariant sum == Sum32(t, q, p, i)
    {
      ChildValid(t, p, i);
      sum := (sum + Ratio(Effective(t, q, p + [i]))) % ULONG;
    }
    return if sum > Ratio(b) then -EINVAL else 0;
  }

  /** `tg_rt_schedulable` on the way down, `tg_nop` on the way up. */
  function Visitor(t: Tree<Bw>, q: Query, limit: nat, enabled: bool): (Call, ()) -> (int, ())
  {
    (c: Call, u: ()) => (if c.Down? && Valid(t, c.tg) then Check(t, q, limit, enabled, c.tg) else 0, u)
  }

  ghost predicate AllPass(t: Tree<Bw>, q: Query, limit: nat, enabled: bool)
  {
    forall p :: Valid(t, p) ==> Check(t, q, limit, enabled, p) == 0
  }

  /** A walk with visitors that keep no state returns zero exactly when every call of it does. */
  lemma {:induction false} PerformZero(visit: (Call, ()) -> (int, ()), calls: seq<Call>, u: ())
    ensures Perform(visit, calls, u).ret == 0 <==> forall c :: c in calls ==> visit(c, ()).0 == 0
  {
    if calls != [] {
      assert u == () && visit(calls[0], u).1 == ();
      PerformZero(visit, calls[1..], ());
      assert forall c :: c in calls <==> c == calls[0] || c in calls[1..];
    }
  }

  lemma TourMembers(t: Tree<Bw>)
    ensures forall p :: Down(p) in Tour(t, []) <==> Valid(t, p)
  {
    forall p
      ensures Down(p) in Tour(t, []) <==> Valid(t, p)
    {
      TourCounts(t, [], p);
      assert p[0..] == p && [] <= p;
      assert Down(p) in Tour(t, []) <==> Down(p) in multiset(Tour(t, []));
    }
  }

  /** What `__rt_schedulable` returns. */
  function Verdict(t: Tree<Bw>, q: Query, limit: nat, enabled: bool): int
  {
    Perform(Visitor(t, q, limit, enabled), Tour(t, []), ()).ret
  }

  lemma VerdictZero(t: Tree<Bw>, q: Query, limit: nat, enabled: bool)
    ensures Verdict(t, q, limit, enabled) == 0 <==> AllPass(t, q, limit, enabled)
  {
    var visit := Visitor(t, q, limit, enabled);
    PerformZero(visit, Tour(t, []), ());
    TourMembers(t);
    if AllPass(t, q, limit, enabled) {
      assert forall c :: c in Tour(t, []) ==> visit(c, ()).0 == 0;
    }
    if Verdict(t, q, limit, enabled) == 0 {
      forall p | Valid(t, p)
        ensures Check(t, q, limit, enabled, p) == 0
      {
        assert visit(Down(p), ()).0 == 0;
      }
    }
  }

  /** A group is busy exactly if it would be left without runtime while it has RT tasks; everything else that is wrong
      is invalid. */
  lemma CheckIs(t: Tree<Bw>, q: Query, limit: nat, enabled: bool, p: Path)
    requires Valid(t, p)
    ensures Check(t, q, limit, enabled, p) in {0, -EINVAL, -EBUSY}
    ensures Check(t, q, limit, enabled, p) == -EBUSY <==> enabled && Effective(t, q, p).runtime == 0 && q.busy(p)
    ensures Check(t, q, limit, enabled, p) == 0 ==> Ratio(Effective(t, q, p)) <= limit
  {
    hide Ratio, Sum32;
  }

  /** What the walk returns, if not zero, is the answer of the first group in walk order that does not pass. */
  lemma VerdictFirst(t: Tree<Bw>, q: Query, limit: nat, enabled: bool) returns (i: nat)
    requires Verdict(t, q, limit, enabled) != 0
    ensures i < |Tour(t, [])| && Tour(t, [])[i].Down? && Valid(t, Tour(t, [])[i].tg)
    ensures Check(t, q, limit, enabled, Tour(t, [])[i].tg) == Verdict(t, q, limit, enabled)
    ensures forall j :: 0 <= j < i && Tour(t, [])[j].Down? && Valid(t, Tour(t, [])[j].tg) ==>
      Check(t, q, limit, enabled, Tour(t, [])[j].tg) == 0
  {
    hide Check;
    var visit, calls := Visitor(t, q, limit, enabled), Tour(t, []);
    var o := Perform(visit, calls, ());
    PerformBegins(visit, calls, ());
    i := |o.calls| - 1;
    assert o.calls[i] == calls[i];
    PerformStops(visit, calls, (), i);
    forall j | 0 <= j < i && calls[j].Down? && Valid(t, calls[j].tg)
      ensures Check(t, q, limit, enabled, calls[j].tg) == 0
    {
      assert o.calls[j] == calls[j];
      PerformStops(visit, calls, (), j);
    }
  }

  /** `__rt_schedulable`: accept exactly when every group of the tree passes. */
  method RtSchedulable(t: Tree<Bw>, q: Query, limit: nat, enabled: bool) returns (ret: int)
    ensures ret == 0 <==> AllPass(t, q, limit, enabled)
    ensures ret == Verdict(t, q, limit, enabled)
  {
    var o := WalkTgTreeFrom(t, [], Visitor(t, q, limit, enabled), ());
    VerdictZero(t, q, limit, enabled);
    ret := o.ret;
  }

  // ----- the tree a query asks about

  function SetAt(t: Tree<Bw>, p: Path, b: Bw): Tree<Bw>
    requires Valid(t, p)
  {
    if p == [] then Node(b, t.children)
    else Node(t.data, t.children[p[0] := SetAt(t.children[p[0]], p[1..], b)])
  }

  predicate QueryOk(t: Tree<Bw>, q: Query)
  {
    q.tg.Some? ==> Valid(t, q.tg.value) && 0 < q.bw.period < U64 && q.bw.runtime < U64
  }

  function Applied(t: Tree<Bw>, q: Query): Tree<Bw>
    requires QueryOk(t, q)
  {
    if q.tg.Some? then SetAt(t, q.tg.value, q.bw) else t
  }

  lemma {:induction false} AtSet(t: Tree<Bw>, v: Path, b: Bw, p: Path)
    requires Valid(t, v)
    ensures Valid(SetAt(t, v, b), p) <==> Valid(t, p)
    ensures Valid(t, p) ==>
      && At(SetAt(t, v, b), p).data == (if v == p then b else At(t, p).data)
      && |At(SetAt(t, v, b), p).children| == |At(t, p).children|
    decreases |p|
  {
    if p != [] && v != [] && p[0] == v[0] {
      AtSet(t.children[p[0]], v[1..], b, p[1..]);
      assert v == [v[0]] + v[1..] && p == [p[0]] + p[1..];
    }
  }

  /** From t to u only the group at tg has changed, to bw. */
  ghost predicate OnlyAt(t: Tree<Bw>, u: Tree<Bw>, tg: Path, bw: Bw)
  {
    && (forall p :: Valid(u, p) <==> Valid(t, p))
    && forall p :: Valid(t, p) && Valid(u, p) ==> At(u, p).data == if p == tg then bw else At(t, p).data
  }

  lemma SetAtOnly(t: Tree<Bw>, tg: Path, bw: Bw)
    requires Valid(t, tg)
    ensures OnlyAt(t, SetAt(t, tg, bw), tg, bw)
  {
    forall p
      ensures Valid(SetAt(t, tg, bw), p) <==> Valid(t, p)
      ensures Valid(t, p) ==> At(SetAt(t, tg, bw), p).data == if p == tg then bw else At(t, p).data
    {
      AtSet(t, tg, bw, p);
    }
  }

  lemma AtApplied(t: Tree<Bw>, q: Query, p: Path)
    requires QueryOk(t, q)
    ensures Valid(Applied(t, q), p) <==> Valid(t, p)
    ensures Valid(t, p) ==>
      && At(Applied(t, q), p).data == Effective(t, q, p)
      && |At(Applied(t, q), p).children| == |At(t, p).children|
  {
    if q.tg.Some? {
      AtSet(t, q.tg.value, q.bw, p);
    }
  }

  lemma ModUnique(x: nat, m: nat, q: nat, r: nat)
    requires m > 0 && r < m && x == m * q + r
    ensures x % m == r
  {
    var d := q - x / m;
    assert m * d == x % m - r;
    assert d > 0 ==> m * d >= m;
    assert d < 0 ==> m * d + m <= 0;
  }

  lemma ModAdd(a: nat, b: nat, m: nat)
    requires m > 0
    ensures (a % m + b) % m == (a + b) % m
  {
    var x := a % m + b;
    var k, l := a / m, x / m;
    assert a + b == m * k + (m * l + x % m);
    assert m * k + m * l == m * (k + l);
    ModUnique(a + b, m, k + l, x % m);
  }

  /** The 32-bit sum is the true sum of the tree asked about, reduced. */
  lemma {:induction false} Sum32Is(t: Tree<Bw>, q: Query, p: Path, n: nat)
    requires QueryOk(t, q) && Valid(t, p) && n <= |At(t, p).children|
    ensures Valid(Applied(t, q), p) && n <= |At(Applied(t, q), p).children|
    ensures Sum32(t, q, p, n) == SumRatio(At(Applied(t, q), p).children, n) % ULONG
  {
    hide Ratio;
    AtApplied(t, q, p);
    if n > 0 {
      Sum32Is(t, q, p, n - 1);
      var u := Applied(t, q);
      ChildValid(t, p, n - 1);
      ChildValid(u, p, n - 1);
      AtApplied(t, q, p + [n - 1]);
      ModAdd(SumRatio(At(u, p).children, n - 1), Ratio(Effective(t, q, p + [n - 1])), ULONG);
    }
  }

  /** A change reaches at most one term of a group's sum. */
  lemma {:induction false} SumGrowth(t: Tree<Bw>, q: Query, p: Path, n: nat)
    requires QueryOk(t, q) && Valid(t, p) && n <= |At(t, p).children|
    ensures Valid(Applied(t, q), p) && n <= |At(Applied(t, q), p).children|
    ensures SumRatio(At(Applied(t, q), p).children, n) <= SumRatio(At(t, p).children, n)
      + if exists i :: 0 <= i < n && q.tg == Some(p + [i]) then Ratio(q.bw) else 0
  {
    AtApplied(t, q, p);
    if n > 0 {
      SumGrowth(t, q, p, n - 1);
      var u := Applied(t, q);
      ChildValid(t, p, n - 1);
      ChildValid(u, p, n - 1);
      AtApplied(t, q, p + [n - 1]);
      forall i | 0 <= i < n - 1
        ensures p + [i] != p + [n - 1]
      {
        assert (p + [i])[|p|] == i && (p + [n - 1])[|p|] == n - 1;
      }
    }
  }

  ghost predicate NoneBusy(t: Tree<Bw>, q: Query)
  {
    forall p :: Valid(t, p) && Effective(t, q, p).runtime == 0 ==> !q.busy(p)
  }

  /** Where the tree in force is accepted and the candidate is sane, no 32-bit sum of the walk wraps. */
  lemma NoWrap(t: Tree<Bw>, was: nat, q: Query, p: Path)
    requires TreeOk(t, was) && QueryOk(t, q) && Valid(t, p) && (q.tg.Some? ==> Sane(q.bw))
    ensures Valid(Applied(t, q), p)
    ensures Sum32(t, q, p, |At(t, p).children|)
      == SumRatio(At(Applied(t, q), p).children, |At(Applied(t, q), p).children|)
  {
    AtApplied(t, q, p);
    TreeOkAt(t, was, p);
    var n := |At(t, p).children|;
    SumGrowth(t, q, p, n);
    Sum32Is(t, q, p, n);
    SaneRatio(At(t, p).data);
    if q.tg.Some? {
      SaneRatio(q.bw);
    }
    ModFacts(SumRatio(At(Applied(t, q), p).children, n), ULONG);
  }

  /** The per-group tests of the walk, wrap-around and all, accept exactly the trees with the whole-tree guarantee. */
  lemma AcceptIff(t: Tree<Bw>, was: nat, q: Query, limit: nat, enabled: bool)
    requires TreeOk(t, was) && QueryOk(t, q)
    ensures AllPass(t, q, limit, enabled) <==> TreeOk(Applied(t, q), limit) && (enabled ==> NoneBusy(t, q))
  {
    if AllPass(t, q, limit, enabled) {
      PassMeansOk(t, was, q, limit, enabled);
    }
    if TreeOk(Applied(t, q), limit) && (enabled ==> NoneBusy(t, q)) {
      OkMeansPass(t, was, q, limit, enabled);
    }
  }

  lemma PassMeansOk(t: Tree<Bw>, was: nat, q: Query, limit: nat, enabled: bool)
    requires TreeOk(t, was) && QueryOk(t, q) && AllPass(t, q, limit, enabled)
    ensures TreeOk(Applied(t, q), limit) && (enabled ==> NoneBusy(t, q))
  {
    hide Ratio, TreeOk, Sum32, SumRatio;
    var u := Applied(t, q);
    if q.tg.Some? {
      assert Check(t, q, limit, enabled, q.tg.value) == 0;
    }
    forall p | Valid(u, p)
      ensures NodeOk(At(u, p), limit)
    {
      AtApplied(t, q, p);
      assert Check(t, q, limit, enabled, p) == 0;
      SaneAt(t, was, p);
      NoWrap(t, was, q, p);
    }
    TreeOkByPaths(u, limit);
  }

  lemma SaneAt(t: Tree<Bw>, limit: nat, p: Path)
    requires TreeOk(t, limit) && Valid(t, p)
    ensures Sane(At(t, p).data)
  {
    TreeOkAt(t, limit, p);
  }

  lemma OkMeansPass(t: Tree<Bw>, was: nat, q: Query, limit: nat, enabled: bool)
    requires TreeOk(t, was) && QueryOk(t, q)
    requires TreeOk(Applied(t, q), limit) && (enabled ==> NoneBusy(t, q))
    ensures AllPass(t, q, limit, enabled)
  {
    hide Ratio, Sum32, SumRatio, TreeOk;
    var u := Applied(t, q);
    if q.tg.Some? {
      AtApplied(t, q, q.tg.value);
      SaneAt(u, limit, q.tg.value);
    }
    forall p | Valid(t, p)
      ensures Check(t, q, limit, enabled, p) == 0
    {
      AtApplied(t, q, p);
      NodeOkAt(u, limit, p);
      NoWrap(t, was, q, p);
    }
  }

  lemma NodeOkAt(t: Tree<Bw>, limit: nat, p: Path)
    requires TreeOk(t, limit) && Valid(t, p)
    ensures NodeOk(At(t, p), limit)
  {
    TreeOkAt(t, limit, p);
  }

  // ----- groups come and go

  /** `sched_create_group`: a new group without runtime goes to the head of its parent's list. */
  function AddChild(t: Tree<Bw>, p: Path, b: Bw): Tree<Bw>
    requires Valid(t, p)
  {
    if p == [] then Node(t.data, [Node(b, [])] + t.children)
    else Node(t.data, t.children[p[0] := AddChild(t.children[p[0]], p[1..], b)])
  }

  /** `sched_destroy_group`: the group leaves its parent's list. */
  function Remove(t: Tree<Bw>, p: Path): Tree<Bw>
    requires p != [] && Valid(t, p)
  {
    if |p| == 1 then Node(t.data, t.children[..p[0]] + t.children[p[0] + 1..])
    else Node(t.data, t.children[p[0] := Remove(t.children[p[0]], p[1..])])
  }

  lemma {:induction false} SumSame(a: seq<Tree<Bw>>, b: seq<Tree<Bw>>, n: nat)
    requires n <= |a| && n <= |b| && forall i :: 0 <= i < n ==> a[i].data == b[i].data
    ensures SumRatio(a, n) == SumRatio(b, n)
  {
    if n > 0 {
      SumSame(a, b, n - 1);
    }
  }

  lemma {:induction false} SumCons(n: Tree<Bw>, a: seq<Tree<Bw>>, k: nat)
    requires k <= |a|
    ensures SumRatio([n] + a, k + 1) == Ratio(n.data) + SumRatio(a, k)
  {
    if k > 0 {
      SumCons(n, a, k - 1);
      assert ([n] + a)[k] == a[k - 1];
    }
  }

  lemma {:induction false} SumWithout(a: seq<Tree<Bw>>, i: nat, k: nat)
    requires i < k <= |a|
    ensures SumRatio(a[..i] + a[i + 1..], k - 1) + Ratio(a[i].data) == SumRatio(a, k)
  {
    var b := a[..i] + a[i + 1..];
    if k == i + 1 {
      SumSame(a, b, i);
    } else {
      SumWithout(a, i, k - 1);
      assert b[k - 2] == a[k - 1];
    }
  }

  lemma ZeroRatio(b: Bw)
    requires b.runtime == 0
    ensures Ratio(b) == 0
  {
  }

  lemma {:induction false} AddChildOk(t: Tree<Bw>, limit: nat, p: Path, b: Bw)
    requires TreeOk(t, limit) && Valid(t, p) && Sane(b) && b.runtime == 0
    ensures TreeOk(AddChild(t, p, b), limit) && AddChild(t, p, b).data == t.data
    decreases |p|
  {
    hide Ratio;
    ZeroRatio(b);
    if p == [] {
      SumCons(Node(b, []), t.children, |t.children|);
    } else {
      AddChildOk(t.children[p[0]], limit, p[1..], b);
      SumSame(t.children, AddChild(t, p, b).children, |t.children|);
    }
  }

  lemma {:induction false} RemoveOk(t: Tree<Bw>, limit: nat, p: Path)
    requires TreeOk(t, limit) && p != [] && Valid(t, p)
    ensures TreeOk(Remove(t, p), limit) && Remove(t, p).data == t.data
    decreases |p|
  {
    hide Ratio;
    if |p| == 1 {
      SumWithout(t.children, p[0], |t.children|);
    } else {
      RemoveOk(t.children[p[0]], limit, p[1..]);
      SumSame(t.children, Remove(t, p).children, |t.children|);
    }
  }

  /** From t to u the children of p have become kids; nothing outside p has changed. */
  ghost predicate OnlyKids(t: Tree<Bw>, u: Tree<Bw>, p: Path, kids: seq<Tree<Bw>>)
    requires Valid(t, p)
  {
    && Valid(u, p) && At(u, p) == Node(At(t, p).data, kids)
    && forall q :: !(p <= q) ==>
         && (Valid(u, q) <==> Valid(t, q))
         && (Valid(t, q) && Valid(u, q) ==>
               At(u, q).data == At(t, q).data && |At(u, q).children| == |At(t, q).children|)
  }

  lemma OnlyKidsUp(t: Tree<Bw>, p: Path, kids: seq<Tree<Bw>>, v: Tree<Bw>, u: Tree<Bw>)
    requires p != [] && Valid(t, p) && OnlyKids(t.children[p[0]], v, p[1..], kids)
    requires u == Node(t.data, t.children[p[0] := v])
    ensures OnlyKids(t, u, p, kids)
  {
    forall q | !(p <= q)
      ensures Valid(u, q) <==> Valid(t, q)
      ensures Valid(t, q) && Valid(u, q) ==>
        At(u, q).data == At(t, q).data && |At(u, q).children| == |At(t, q).children|
    {
      if q != [] && q[0] == p[0] {
        assert p == [p[0]] + p[1..] && q == [q[0]] + q[1..];
        assert !(p[1..] <= q[1..]);
      }
    }
  }

  /** A new group is the first child of its parent and has none itself; every other group is as it was. */
  lemma {:induction false} AddChildExact(t: Tree<Bw>, p: Path, b: Bw)
    requires Valid(t, p)
    ensures OnlyKids(t, AddChild(t, p, b), p, [Node(b, [])] + At(t, p).children)
    decreases |p|
  {
    if p != [] {
      AddChildExact(t.children[p[0]], p[1..], b);
      OnlyKidsUp(t, p, [Node(b, [])] + At(t, p).children, AddChild(t.children[p[0]], p[1..], b), AddChild(t, p, b));
    }
  }

  /** A group that goes leaves its parent's list, and every other group is as it was. */
  lemma {:induction false} RemoveExact(t: Tree<Bw>, p: Path)
    requires p != [] && Valid(t, p)
    ensures Valid(t, Parent(p)) && Last(p) < |At(t, Parent(p)).children|
    ensures var kids := At(t, Parent(p)).children;
            OnlyKids(t, Remove(t, p), Parent(p), kids[..Last(p)] + kids[Last(p) + 1..])
    decreases |p|
  {
    ParentValid(t, p);
    if |p| > 1 {
      RemoveExact(t.children[p[0]], p[1..]);
      assert Parent(p)[1..] == Parent(p[1..]);
      var kids := At(t, Parent(p)).children;
      OnlyKidsUp(t, Parent(p), kids[..Last(p)] + kids[Last(p) + 1..], Remove(t.children[p[0]], p[1..]), Remove(t, p));
    }
  }

  // ----- runtimes stay within a `long` of microseconds

  lemma {:induction false} SetFits(t: Tree<Bw>, p: Path, b: Bw)
    requires TreeFits(t) && Valid(t, p) && Fits(b)
    ensures TreeFits(SetAt(t, p, b))
    decreases |p|
  {
    if p != [] {
      SetFits(t.children[p[0]], p[1..], b);
    }
  }

  lemma {:induction false} AddFits(t: Tree<Bw>, p: Path, b: Bw)
    requires TreeFits(t) && Valid(t, p) && Fits(b)
    ensures TreeFits(AddChild(t, p, b))
    decreases |p|
  {
    if p == [] {
      assert TreeFits(Node(b, []));
    } else {
      AddFits(t.children[p[0]], p[1..], b);
    }
  }

  lemma {:induction false} RemoveFits(t: Tree<Bw>, p: Path)
    requires TreeFits(t) && p != [] && Valid(t, p)
    ensures TreeFits(Remove(t, p))
    decreases |p|
  {
    if |p| > 1 {
      RemoveFits(t.children[p[0]], p[1..]);
    }
  }

  // ----- every run of settings changes

  datatype Op =
    | SetRuntime(tg: Path, us: int, busy: Path -> bool)
    | SetPeriod(tg: Path, us: int, busy: Path -> bool)
    | SetGlobal(period: nat, runtime: int, busy: Path -> bool)
    | CreateGroup(parent: Path)
    | DestroyGroup(tg: Path)

  /** The arguments have the source's types: groups that exist, a 32-bit `long`, an `unsigned int` and an `int`. */
  predicate Enabled(s: Sys, op: Op)
  {
    match op
    case SetRuntime(tg, us, _) => Valid(s.root, tg) && -0x8000_0000 <= us < 0x8000_0000
    case SetPeriod(tg, us, _) => Valid(s.root, tg) && -0x8000_0000 <= us < 0x8000_0000
    case SetGlobal(p, r, _) => p < 0x1_0000_0000 && -0x8000_0000 <= r < 0x8000_0000
    case CreateGroup(p) => Valid(s.root, p)
    case DestroyGroup(tg) => tg != [] && Valid(s.root, tg) && At(s.root, tg).children == []
  }

  /** `tg_set_rt_bandwidth`. */
  function SetBandwidth(s: Sys, tg: Path, bw: Bw, busy: Path -> bool): (Sys, int)
    requires Valid(s.root, tg)
  {
    var err := Verdict(s.root, Query(Some(tg), bw, busy), Limit(s), s.sysRuntime >= 0);
    if err != 0 then (s, err) else (s.(root := SetAt(s.root, tg, bw)), 0)
  }

  /** `sched_rt_handler` with `sched_rt_global_constraints`: the sysctls are written, tested, and put back. */
  function WriteGlobal(s: Sys, period: nat, runtime: int, busy: Path -> bool): (Sys, int)
  {
    var s1 := s.(sysPeriod := period, sysRuntime := runtime);
    var b := GlobalBw(s1);
    if period == 0 then (s, -EINVAL)
    else if b.runtime > b.period && b.runtime != RUNTIME_INF then (s, -EINVAL)
    else
      var err := Verdict(s.root, Query(None, Bw(0, 0), busy), Limit(s1), runtime >= 0);
      if err != 0 then (s, err) else (s1.(defPeriod := b.period), 0)
  }

  function Next(s: Sys, op: Op): (Sys, int)
    requires Enabled(s, op)
  {
    match op
    case SetRuntime(tg, us, busy) =>
      SetBandwidth(s, tg, Bw(At(s.root, tg).data.period, if us < 0 then RUNTIME_INF else us * NSEC_PER_USEC), busy)
    case SetPeriod(tg, us, busy) =>
      var period := (us * NSEC_PER_USEC) % U64;
      if period == 0 then (s, -EINVAL) else SetBandwidth(s, tg, Bw(period, At(s.root, tg).data.runtime), busy)
    case SetGlobal(p, r, busy) => WriteGlobal(s, p, r, busy)
    case CreateGroup(p) => (s.(root := AddChild(s.root, p, Bw(s.defPeriod, 0))), 0)
    case DestroyGroup(tg) => (s.(root := Remove(s.root, tg)), 0)
  }

  ghost predicate SysOk(s: Sys)
  {
    TreeOk(s.root, Limit(s)) && Sane(GlobalBw(s)) && 0 < s.defPeriod < U64
  }

  lemma SetBandwidthOk(s: Sys, tg: Path, bw: Bw, busy: Path -> bool)
    requires SysOk(s) && Valid(s.root, tg) && 0 < bw.period < U64 && bw.runtime < U64
    ensures SysOk(SetBandwidth(s, tg, bw, busy).0)
    ensures SetBandwidth(s, tg, bw, busy).1 == 0 <==>
      && TreeOk(SetAt(s.root, tg, bw), Limit(s))
      && (s.sysRuntime >= 0 ==> NoneBusy(s.root, Query(Some(tg), bw, busy)))
    ensures SetBandwidth(s, tg, bw, busy).1 != 0 ==> SetBandwidth(s, tg, bw, busy).0 == s
    ensures SetBandwidth(s, tg, bw, busy).1 == 0 ==>
      var e := SetBandwidth(s, tg, bw, busy).0;
      OnlyAt(s.root, e.root, tg, bw) && e == s.(root := e.root)
  {
    hide TreeOk, Limit, Verdict, NoneBusy, AllPass, OnlyAt;
    SetAtOnly(s.root, tg, bw);
    var q := Query(Some(tg), bw, busy);
    VerdictZero(s.root, q, Limit(s), s.sysRuntime >= 0);
    AcceptIff(s.root, Limit(s), q, Limit(s), s.sysRuntime >= 0);
    LimitFrame(s, SetBandwidth(s, tg, bw, busy).0);
  }

  lemma LimitFrame(s: Sys, s1: Sys)
    requires s.sysPeriod == s1.sysPeriod && s.sysRuntime == s1.sysRuntime
    ensures Limit(s) == Limit(s1)
  {
  }

  lemma WriteGlobalOk(s: Sys, period: nat, runtime: int, busy: Path -> bool)
    requires SysOk(s) && period < 0x1_0000_0000 && runtime < 0x8000_0000
    ensures SysOk(WriteGlobal(s, period, runtime, busy).0)
    ensures WriteGlobal(s, period, runtime, busy).1 != 0 ==> WriteGlobal(s, period, runtime, busy).0 == s
    ensures WriteGlobal(s, period, runtime, busy).1 == 0 ==>
      WriteGlobal(s, period, runtime, busy).0 == Sys(s.root, period, runtime, 1000 * period)
    ensures WriteGlobal(s, period, runtime, busy).1 == 0 <==>
      && period > 0 && runtime <= period
      && TreeOk(s.root, Limit(s.(sysPeriod := period, sysRuntime := runtime)))
      && (runtime >= 0 ==> NoneBusy(s.root, Query(None, Bw(0, 0), busy)))
  {
    hide TreeOk, Limit, Verdict, NoneBusy, AllPass;
    var q := Query(None, Bw(0, 0), busy);
    var s1 := s.(sysPeriod := period, sysRuntime := runtime);
    VerdictZero(s.root, q, Limit(s1), runtime >= 0);
    AcceptIff(s.root, Limit(s), q, Limit(s1), runtime >= 0);
    LimitFrame(s1, s1.(defPeriod := GlobalBw(s1).period));
  }

  /** Every change keeps the guarantee; a rejected one changes nothing. */
  lemma NextOk(s: Sys, op: Op)
    requires SysOk(s) && Enabled(s, op)
    ensures SysOk(Next(s, op).0)
    ensures Next(s, op).1 != 0 ==> Next(s, op).0 == s
  {
    hide TreeOk, SetBandwidth, WriteGlobal, AddChild, Remove, Limit;
    match op
    case SetRuntime(tg, us, busy) =>
      SaneAt(s.root, Limit(s), tg);
      var b := Bw(At(s.root, tg).data.period, if us < 0 then RUNTIME_INF else us * NSEC_PER_USEC);
      SetBandwidthOk(s, tg, b, busy);
    case SetPeriod(tg, us, busy) =>
      SaneAt(s.root, Limit(s), tg);
      var period := (us * NSEC_PER_USEC) % U64;
      if period != 0 {
        SetBandwidthOk(s, tg, Bw(period, At(s.root, tg).data.runtime), busy);
      }
    case SetGlobal(p, r, busy) => WriteGlobalOk(s, p, r, busy);
    case CreateGroup(p) =>
      AddChildOk(s.root, Limit(s), p, Bw(s.defPeriod, 0));
      LimitFrame(s, Next(s, op).0);
    case DestroyGroup(tg) =>
      RemoveOk(s.root, Limit(s), tg);
      LimitFrame(s, Next(s, op).0);
  }

  /** The bandwidth a change asks for. */
  function AskedFor(s: Sys, op: Op): Bw
    requires (op.SetRuntime? || op.SetPeriod?) && Enabled(s, op)
  {
    var was := At(s.root, op.tg).data;
    if op.SetRuntime? then Bw(was.period, if op.us < 0 then RUNTIME_INF else 1000 * op.us)
    else Bw(if op.us >= 0 then 1000 * op.us else U64 + 1000 * op.us, was.runtime)
  }

  /** What each change does when it is accepted. */
  ghost predicate Made(s: Sys, op: Op, e: Sys)
    requires Enabled(s, op)
  {
    match op
    case SetGlobal(p, r, _) => e == Sys(s.root, p, r, 1000 * p)
    case CreateGroup(p) =>
      && e == s.(root := e.root)
      && OnlyKids(s.root, e.root, p, [Node(Bw(s.defPeriod, 0), [])] + At(s.root, p).children)
    case DestroyGroup(tg) =>
      && e == s.(root := e.root)
      && Valid(s.root, Parent(tg)) && Last(tg) < |At(s.root, Parent(tg)).children|
      && var kids := At(s.root, Parent(tg)).children;
         OnlyKids(s.root, e.root, Parent(tg), kids[..Last(tg)] + kids[Last(tg) + 1..])
    case _ => e == s.(root := e.root) && OnlyAt(s.root, e.root, op.tg, AskedFor(s, op))
  }

  /** Which changes are accepted: those that leave the tree with the guarantee and no group with RT tasks without
      runtime. A period of zero is not; groups come and go freely. */
  ghost predicate Accepted(s: Sys, op: Op)
    requires Enabled(s, op)
  {
    match op
    case SetGlobal(p, r, busy) =>
      && p > 0 && r <= p && TreeOk(s.root, Limit(s.(sysPeriod := p, sysRuntime := r)))
      && (r >= 0 ==> NoneBusy(s.root, Query(None, Bw(0, 0), busy)))
    case CreateGroup(_) => true
    case DestroyGroup(_) => true
    case _ =>
      && AskedFor(s, op).period > 0
      && TreeOk(SetAt(s.root, op.tg, AskedFor(s, op)), Limit(s))
      && (s.sysRuntime >= 0 ==> NoneBusy(s.root, Query(Some(op.tg), AskedFor(s, op), op.busy)))
  }

  /** Every change exactly: which are accepted, what an accepted one has changed, and that a rejected one has changed
      nothing. */
  lemma NextExact(s: Sys, op: Op)
    requires SysOk(s) && Enabled(s, op)
    ensures Next(s, op).1 == 0 <==> Accepted(s, op)
    ensures Next(s, op).1 == 0 ==> Made(s, op, Next(s, op).0)
    ensures Next(s, op).1 != 0 ==> Next(s, op).0 == s
  {
    hide TreeOk, SetBandwidth, WriteGlobal, AddChild, Remove, Limit, OnlyAt, OnlyKids, Sane, NoneBusy;
    match op
    case SetRuntime(tg, us, busy) =>
      SaneAt(s.root, Limit(s), tg);
      SaneFits(At(s.root, tg).data);
      SetBandwidthOk(s, tg, AskedFor(s, op), busy);
    case SetPeriod(tg, us, busy) =>
      SaneAt(s.root, Limit(s), tg);
      SaneFits(At(s.root, tg).data);
      assert (us * NSEC_PER_USEC) % U64 == AskedFor(s, op).period;
      if us != 0 {
        SetBandwidthOk(s, tg, AskedFor(s, op), busy);
      }
    case SetGlobal(p, r, busy) => WriteGlobalOk(s, p, r, busy);
    case CreateGroup(p) => AddChildExact(s.root, p, Bw(s.defPeriod, 0));
    case DestroyGroup(tg) => RemoveExact(s.root, tg);
  }

  lemma SaneFits(b: Bw)
    requires Sane(b)
    ensures 0 < b.period < U64 && b.runtime < U64
  {
  }

  /** Every change leaves every runtime unlimited or within a `long` of microseconds. */
  lemma NextFits(s: Sys, op: Op)
    requires TreeFits(s.root) && Enabled(s, op)
    ensures TreeFits(Next(s, op).0.root)
  {
    hide TreeFits, Verdict, SetAt, AddChild, Remove;
    match op
    case SetRuntime(tg, us, busy) =>
      var b := Bw(At(s.root, tg).data.period, if us < 0 then RUNTIME_INF else us * NSEC_PER_USEC);
      SetFits(s.root, tg, b);
    case SetPeriod(tg, us, busy) =>
      TreeFitsAt(s.root, tg);
      SetFits(s.root, tg, Bw((us * NSEC_PER_USEC) % U64, At(s.root, tg).data.runtime));
    case SetGlobal(p, r, busy) =>
    case CreateGroup(p) =>
      AddFits(s.root, p, Bw(s.defPeriod, 0));
    case DestroyGroup(tg) =>
      RemoveFits(s.root, tg);
  }

  /** `sched_init`: 1 s periods of which RT may use 0.95 s, and only the root group. */
  function Boot(): Sys
  {
    var b := Bw(1_000_000 * NSEC_PER_USEC, 950_000 * NSEC_PER_USEC);
    Sys(Node(b, []), 1_000_000, 950_000, b.period)
  }

  function Execute(s: Sys, ops: seq<Op>): (r: Sys)
    decreases |ops|
  {
    if ops == [] then s
    else Execute(if Enabled(s, ops[0]) then Next(s, ops[0]).0 else s, ops[1..])
  }

  lemma {:induction false} ExecuteOk(s: Sys, ops: seq<Op>)
    requires SysOk(s) && TreeFits(s.root)
    ensures SysOk(Execute(s, ops)) && TreeFits(Execute(s, ops).root)
    decreases |ops|
  {
    hide SysOk, Next, Enabled, TreeFits;
    if ops != [] {
      if Enabled(s, ops[0]) {
        NextOk(s, ops[0]);
        NextFits(s, ops[0]);
        ExecuteOk(Next(s, ops[0]).0, ops[1..]);
      } else {
        ExecuteOk(s, ops[1..]);
      }
    }
  }

  /** After every run of changes made one after the other, whatever groups one picks, as long as none lies inside
      another, their ratios together stay within the global limit, and the parts of the time they may really use
      exceed it by less than one unit of 2^20 each. */
  lemma EveryRun(ops: seq<Op>, s: Sys, a: seq<Path>)
    requires s == Execute(Boot(), ops) && AllValid(s.root, a) && Antichain(a)
    ensures TreeOk(s.root, Limit(s)) && TreeFits(s.root)
    ensures SumOf(s.root, a) <= Limit(s) <= RATIO_ONE
    ensures forall q :: q in a ==> At(s.root, q).data.period > 0
    ensures a != [] ==> SumShare(s.root, a) * 1048576.0 < (Limit(s) + |a|) as real
  {
    hide TreeOk, Execute, TreeFits;
    BootOk();
    ExecuteOk(Boot(), ops);
    AntichainBound(s.root, Limit(s), a);
    SaneRatio(GlobalBw(s));
    if a != [] {
      SharesBound(s.root, Limit(s), a);
    }
  }

  lemma BootOk()
    ensures SysOk(Boot()) && TreeFits(Boot().root)
  {
  }

  /** The settings as the kernel holds them. */
  class RtSettings {
    var root: Tree<Bw>
    var sysPeriod: nat
    var sysRuntime: int
    var defPeriod: nat

    ghost function State(): Sys
      reads this
    {
      Sys(root, sysPeriod, sysRuntime, defPeriod)
    }

    /** `tg_set_rt_bandwidth`. */
    method TgSetRtBandwidth(tg: Path, bw: Bw, busy: Path -> bool) returns (err: int)
      requires SysOk(State()) && Valid(root, tg) && 0 < bw.period < U64 && bw.runtime < U64
      modifies this`root
      ensures (State(), err) == SetBandwidth(old(State()), tg, bw, busy)
      ensures SysOk(State()) && (err != 0 ==> State() == old(State()))
      ensures err == 0 ==> OnlyAt(old(root), root, tg, bw)
    {
      hide SysOk, Limit, AllPass, Verdict, OnlyAt;
      SetBandwidthOk(State(), tg, bw, busy);
      err := RtSchedulable(root, Query(Some(tg), bw, busy), Limit(Sys(root, sysPeriod, sysRuntime, defPeriod)),
        sysRuntime >= 0);
      if err != 0 {
        return;
      }
      root := SetAt(root, tg, bw);
    }

    /** `sched_rt_handler` on a write of both sysctls. */
    method SchedRtHandler(period: nat, runtime: int, busy: Path -> bool) returns (err: int)
      requires SysOk(State()) && period < 0x1_0000_0000 && runtime < 0x8000_0000
      modifies this
      ensures (State(), err) == WriteGlobal(old(State()), period, runtime, busy)
      ensures SysOk(State()) && (err != 0 ==> State() == old(State()))
      ensures err == 0 ==> State() == Sys(old(root), period, runtime, 1000 * period)
    {
      hide SysOk, Limit, AllPass, Verdict;
      WriteGlobalOk(State(), period, runtime, busy);
      var oldPeriod, oldRuntime := sysPeriod, sysRuntime;
      sysPeriod, sysRuntime := period, runtime;
      var s := Sys(root, sysPeriod, sysRuntime, defPeriod);
      if period == 0 || (GlobalBw(s).runtime > GlobalBw(s).period && GlobalBw(s).runtime != RUNTIME_INF) {
        err := -EINVAL;
      } else {
        err := RtSchedulable(root, Query(None, Bw(0, 0), busy), Limit(s), sysRuntime >= 0);
      }
      if err != 0 {
        sysPeriod, sysRuntime := oldPeriod, oldRuntime;
      } else {
        defPeriod := GlobalBw(s).period;
      }
    }
  }
}
