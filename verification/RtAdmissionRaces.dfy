/**
 Bandwidth changes and sysctl writes that overlap. `sched_rt_handler` writes the sysctls before it tests them and puts
 them back if the test fails, under a mutex of its own; a bandwidth change walks the tree under another mutex and reads
 the sysctls afresh at every group.
 */
module RtAdmissionRaces {
  import opened Basics
  import opened TgWalk
  import opened RtAdmission
  import opened RtAdmissionRuns

  /** Where `sched_rt_handler` is, with the values it will put back. */
  datatype Write =
    | NoWrite
    | Unsure(period: nat, runtime: int)
    | Rejected(period: nat, runtime: int)
    | Passed

  /** Where `tg_set_rt_bandwidth` is in its walk. `rootLimit` and `doubt` are history: the limit the root group was
      tested against, and whether a write was under way then that had not passed its test. */
  datatype Walk =
    | NoWalk
    | Walk(tg: Path, bw: Bw, next: nat, rootLimit: nat, doubt: bool)

  /** `kept` and `doubted` are history: whether the last change also passes under the sysctls that are in force once
      the write is over, and whether the root group was ever changed by a walk that tested it in doubt. */
  datatype State = State(sys: Sys, write: Write, walk: Walk, kept: bool, doubted: bool)

  datatype Step =
    | WriteSysctl(period: nat, runtime: int)
    | TestSysctl(busy: Path -> bool)
    | FinishSysctl
    | BeginChange(tg: Path, bw: Bw)
    | Visit(busy: Path -> bool)
    | Commit
    | Create(parent: Path)
    | Destroy(tg: Path)

  function Calls(s: State): seq<Call>
  {
    Tour(s.sys.root, [])
  }

  /** The first checks of `sched_rt_global_constraints`, made before it takes the walk's mutex. */
  predicate SysctlsSane(s: Sys)
  {
    s.sysPeriod != 0 && (GlobalBw(s).runtime <= GlobalBw(s).period || GlobalBw(s).runtime == RUNTIME_INF)
  }

  /** Writes exclude each other, and so do walks; groups come and go between walks. */
  predicate Enabled(s: State, step: Step)
  {
    match step
    case WriteSysctl(p, r) => s.write.NoWrite? && p < 0x1_0000_0000 && -0x8000_0000 <= r < 0x8000_0000
    case TestSysctl(_) => s.write.Unsure? && (SysctlsSane(s.sys) ==> s.walk.NoWalk?)
    case FinishSysctl => s.write.Rejected? || s.write.Passed?
    case BeginChange(tg, bw) => s.walk.NoWalk? && Valid(s.sys.root, tg) && 0 < bw.period < U64 && Fits(bw)
    case Visit(_) => s.walk.Walk? && s.walk.next < |Calls(s)|
    case Commit => s.walk.Walk? && s.walk.next == |Calls(s)| && Valid(s.sys.root, s.walk.tg)
    case Create(p) => s.walk.NoWalk? && Valid(s.sys.root, p)
    case Destroy(tg) =>
      s.walk.NoWalk? && tg != [] && Valid(s.sys.root, tg) && At(s.sys.root, tg).children == []
  }

  /** The global limit that is in force once the write under way is over. */
  function Committed(s: State): nat
  {
    if s.write.Unsure? || s.write.Rejected?
    then Limit(s.sys.(sysPeriod := s.write.period, sysRuntime := s.write.runtime))
    else Limit(s.sys)
  }

  function TestWrite(s: State, busy: Path -> bool): State
    requires s.write.Unsure?
  {
    var err :=
      if !SysctlsSane(s.sys) then -EINVAL
      else Verdict(s.sys.root, Query(None, Bw(0, 0), busy), Limit(s.sys), s.sys.sysRuntime >= 0);
    if err != 0 then s.(write := Rejected(s.write.period, s.write.runtime)) else s.(write := Passed, kept := true)
  }

  function VisitNext(s: State, busy: Path -> bool): State
    requires s.walk.Walk? && s.walk.next < |Calls(s)|
  {
    var w, call := s.walk, Calls(s)[s.walk.next];
    if call.Up? || !Valid(s.sys.root, call.tg) then s.(walk := w.(next := w.next + 1))
    else
      var err := Check(s.sys.root, Query(Some(w.tg), w.bw, busy), Limit(s.sys), s.sys.sysRuntime >= 0, call.tg);
      if err != 0 then s.(walk := NoWalk)
      else if call.tg != [] then s.(walk := w.(next := w.next + 1))
      else
        var doubt := s.write.Unsure? || s.write.Rejected?;
        s.(walk := w.(next := w.next + 1, rootLimit := Limit(s.sys), doubt := doubt))
  }

  function CommitChange(s: State): State
    requires s.walk.Walk? && Valid(s.sys.root, s.walk.tg)
  {
    var root := SetAt(s.sys.root, s.walk.tg, s.walk.bw);
    State(s.sys.(root := root), s.write, NoWalk, Ratio(root.data) <= Committed(s),
          s.doubted || (s.walk.tg == [] && s.walk.doubt))
  }

  function Next(s: State, step: Step): State
    requires Enabled(s, step)
  {
    match step
    case WriteSysctl(p, r) =>
      s.(write := Unsure(s.sys.sysPeriod, s.sys.sysRuntime), sys := s.sys.(sysPeriod := p, sysRuntime := r))
    case TestSysctl(busy) => TestWrite(s, busy)
    case FinishSysctl =>
      if s.write.Rejected?
      then s.(write := NoWrite, sys := s.sys.(sysPeriod := s.write.period, sysRuntime := s.write.runtime))
      else s.(write := NoWrite, sys := s.sys.(defPeriod := GlobalBw(s.sys).period))
    case BeginChange(tg, bw) => s.(walk := Walk(tg, bw, 0, 0, false))
    case Visit(busy) => VisitNext(s, busy)
    case Commit => CommitChange(s)
    case Create(p) => s.(sys := s.sys.(root := AddChild(s.sys.root, p, Bw(s.sys.defPeriod, 0))))
    case Destroy(tg) => s.(sys := s.sys.(root := Remove(s.sys.root, tg)))
  }

  function Execute(s: State, steps: seq<Step>): State
    decreases |steps|
  {
    if steps == [] then s else Execute(if Enabled(s, steps[0]) then Next(s, steps[0]) else s, steps[1..])
  }

  // ----- the tree by itself

  /** Every group is sane and children's ratios sum to at most their parent's. */
  ghost predicate Nested(t: Tree<Bw>)
  {
    TreeOk(t, Ratio(t.data))
  }

  lemma {:induction false} RatioInSum(kids: seq<Tree<Bw>>, n: nat, i: nat)
    requires i < n <= |kids|
    ensures Ratio(kids[i].data) <= SumRatio(kids, n)
    decreases n
  {
    hide Ratio;
    if i < n - 1 {
      RatioInSum(kids, n - 1, i);
    }
  }

  /** Only the root's ratio decides about the limit. */
  lemma {:induction false} AnyLimit(t: Tree<Bw>, limit: nat, other: nat)
    requires TreeOk(t, limit) && Ratio(t.data) <= other
    ensures TreeOk(t, other)
    decreases t
  {
    hide Ratio;
    forall i | 0 <= i < |t.children|
      ensures TreeOk(t.children[i], other)
    {
      RatioInSum(t.children, |t.children|, i);
      AnyLimit(t.children[i], limit, other);
    }
  }

  lemma NestedIs(t: Tree<Bw>, limit: nat)
    ensures TreeOk(t, limit) <==> Nested(t) && Ratio(t.data) <= limit
  {
    hide Ratio;
    if TreeOk(t, limit) {
      AnyLimit(t, limit, Ratio(t.data));
    }
    if Nested(t) && Ratio(t.data) <= limit {
      AnyLimit(t, Ratio(t.data), limit);
    }
  }

  // ----- the invariant

  function Asked(w: Walk): Query
    requires w.Walk?
  {
    Query(Some(w.tg), w.bw, _ => false)
  }

  /** What a walk has established, whatever limits it met: every group so far passes the tests that do not depend on
      them, and the root is within the limit it was tested against. */
  ghost predicate WalkOk(s: State)
  {
    s.walk.Walk? ==>
      var w, q := s.walk, Asked(s.walk);
      && Valid(s.sys.root, w.tg) && 0 < w.bw.period < U64 && Fits(w.bw)
      && w.next <= |Calls(s)|
      && (forall i :: 0 <= i < w.next && Calls(s)[i].Down? && Valid(s.sys.root, Calls(s)[i].tg) ==>
            Check(s.sys.root, q, ULONG, false, Calls(s)[i].tg) == 0)
      && (w.next > 0 ==> Ratio(Effective(s.sys.root, q, [])) <= w.rootLimit)
      && (w.next > 0 && !w.doubt ==> w.rootLimit == Committed(s))
  }

  ghost predicate Inv(s: State)
  {
    && Nested(s.sys.root) && TreeFits(s.sys.root)
    && 0 < s.sys.defPeriod < U64
    && s.sys.sysPeriod < 0x1_0000_0000
    && (s.write.Unsure? || s.write.Rejected? ==> s.write.period < 0x1_0000_0000)
    && WalkOk(s)
    && (s.kept <==> Ratio(s.sys.root.data) <= Committed(s))
    && (!s.doubted ==> s.kept)
    && (s.write.Passed? ==> s.sys.sysPeriod > 0)
  }

  // ----- the sysctls

  lemma LimitOf(a: Sys, b: Sys)
    requires a.sysPeriod == b.sysPeriod && a.sysRuntime == b.sysRuntime
    ensures Limit(a) == Limit(b)
  {
    LimitFrame(a, b);
  }

  lemma WriteOk(s: State, step: Step)
    requires Inv(s) && Enabled(s, step) && (step.WriteSysctl? || step.FinishSysctl?)
    ensures Inv(Next(s, step)) && Committed(Next(s, step)) == Committed(s)
  {
    hide Nested, TreeFits, Limit, Ratio, Tour, Check;
    var e := Next(s, step);
    if step.WriteSysctl? {
      LimitOf(s.sys, e.sys.(sysPeriod := e.write.period, sysRuntime := e.write.runtime));
    } else if s.write.Rejected? {
      LimitOf(e.sys, s.sys.(sysPeriod := s.write.period, sysRuntime := s.write.runtime));
    } else {
      LimitOf(e.sys, s.sys);
    }
  }

  lemma TestOk(s: State, busy: Path -> bool)
    requires Inv(s) && Enabled(s, TestSysctl(busy))
    ensures Inv(TestWrite(s, busy))
  {
    hide Limit, Ratio, Tour, Check, TreeFits, Verdict, AllPass, TreeOk;
    var q := Query(None, Bw(0, 0), busy);
    var limit, enabled := Limit(s.sys), s.sys.sysRuntime >= 0;
    VerdictZero(s.sys.root, q, limit, enabled);
    AcceptIff(s.sys.root, Ratio(s.sys.root.data), q, limit, enabled);
    NestedIs(s.sys.root, limit);
  }

  // ----- the walk

  /** A group that passes one limit passes the tests that do not depend on it. */
  lemma CheckRelax(t: Tree<Bw>, q: Query, limit: nat, enabled: bool, p: Path)
    requires Valid(t, p) && q.tg.Some? && Check(t, q, limit, enabled, p) == 0
    ensures Check(t, q.(busy := _ => false), ULONG, false, p) == 0
    ensures Ratio(Effective(t, q, p)) <= limit
  {
    var r := q.(busy := _ => false);
    SameSum(t, q, r, p, |At(t, p).children|);
    RatioFits(Effective(t, q, p));
  }

  lemma RatioFits(b: Bw)
    ensures Ratio(b) < ULONG
  {
    if b.period != 0 && b.runtime != RUNTIME_INF {
      ModFacts(Shifted(b.runtime, RATIO_ONE, U64) / b.period, ULONG);
    }
  }

  lemma {:induction false} SameSum(t: Tree<Bw>, q: Query, r: Query, p: Path, n: nat)
    requires Valid(t, p) && n <= |At(t, p).children| && q.tg == r.tg && q.bw == r.bw
    ensures Sum32(t, q, p, n) == Sum32(t, r, p, n)
    decreases n
  {
    hide Ratio;
    if n > 0 {
      ChildValid(t, p, n - 1);
      SameSum(t, q, r, p, n - 1);
    }
  }

  lemma FirstCall(t: Tree<Bw>)
    ensures |Tour(t, [])| > 0 && Tour(t, [])[0] == Down([])
  {
  }

  lemma VisitOk(s: State, busy: Path -> bool)
    requires Inv(s) && Enabled(s, Visit(busy))
    ensures Inv(VisitNext(s, busy))
  {
    hide Limit, Ratio, Tour, Check, TreeFits, Nested, Effective;
    var w, call := s.walk, Calls(s)[s.walk.next];
    FirstCall(s.sys.root);
    if call.Down? && Valid(s.sys.root, call.tg) {
      var q := Query(Some(w.tg), w.bw, busy);
      if Check(s.sys.root, q, Limit(s.sys), s.sys.sysRuntime >= 0, call.tg) == 0 {
        CheckRelax(s.sys.root, q, Limit(s.sys), s.sys.sysRuntime >= 0, call.tg);
        SameAsked(s.sys.root, q, w, call.tg);
      }
    }
  }

  lemma SameAsked(t: Tree<Bw>, q: Query, w: Walk, p: Path)
    requires w.Walk? && q == Query(Some(w.tg), w.bw, q.busy) && Valid(t, p)
    ensures Effective(t, Asked(w), p) == Effective(t, q, p)
    ensures Check(t, q.(busy := _ => false), ULONG, false, p) == 0 ==> Check(t, Asked(w), ULONG, false, p) == 0
  {
    SameSum(t, q.(busy := _ => false), Asked(w), p, |At(t, p).children|);
  }

  /** A finished walk has passed every group. */
  lemma Walked(s: State)
    requires Inv(s) && Enabled(s, Commit)
    ensures AllPass(s.sys.root, Asked(s.walk), ULONG, false)
  {
    hide Check, Tour, Limit, Ratio, Nested, TreeFits;
    TourMembers(s.sys.root);
    forall p | Valid(s.sys.root, p)
      ensures Check(s.sys.root, Asked(s.walk), ULONG, false, p) == 0
    {
      assert Down(p) in Calls(s);
      var i :| 0 <= i < |Calls(s)| && Calls(s)[i] == Down(p);
    }
  }

  lemma CommitOk(s: State)
    requires Inv(s) && Enabled(s, Commit)
    ensures Inv(CommitChange(s))
  {
    hide Limit, Ratio, Tour, Check, AllPass, TreeOk, TreeFits;
    var w, q := s.walk, Asked(s.walk);
    FirstCall(s.sys.root);
    Walked(s);
    AcceptIff(s.sys.root, Ratio(s.sys.root.data), q, ULONG, false);
    var root := SetAt(s.sys.root, w.tg, w.bw);
    FitsBound(w.bw);
    NestedIs(root, ULONG);
    SetFits(s.sys.root, w.tg, w.bw);
    RootData(s.sys.root, w);
    LimitOf(CommitChange(s).sys, s.sys);
    SameCommitted(s, CommitChange(s));
  }

  lemma FitsBound(b: Bw)
    requires Fits(b)
    ensures b.runtime < U64
  {
  }

  lemma RootData(t: Tree<Bw>, w: Walk)
    requires w.Walk? && Valid(t, w.tg)
    ensures SetAt(t, w.tg, w.bw).data == Effective(t, Asked(w), [])
    ensures w.tg != [] ==> SetAt(t, w.tg, w.bw).data == t.data
  {
  }

  /** The limit in force depends on the sysctls and the write only. */
  lemma SameCommitted(a: State, b: State)
    requires a.write == b.write && a.sys.sysPeriod == b.sys.sysPeriod && a.sys.sysRuntime == b.sys.sysRuntime
    ensures Committed(a) == Committed(b)
  {
    hide Limit;
    LimitOf(a.sys, b.sys);
    if a.write.Unsure? || a.write.Rejected? {
      LimitOf(a.sys.(sysPeriod := a.write.period, sysRuntime := a.write.runtime),
              b.sys.(sysPeriod := b.write.period, sysRuntime := b.write.runtime));
    }
  }

  lemma GroupOk(s: State, step: Step)
    requires Inv(s) && Enabled(s, step) && (step.Create? || step.Destroy?)
    ensures Inv(Next(s, step))
  {
    hide Limit, Ratio, TreeFits, TreeOk;
    var e := Next(s, step);
    SameCommitted(s, e);
    if step.Create? {
      AddChildOk(s.sys.root, Ratio(s.sys.root.data), step.parent, Bw(s.sys.defPeriod, 0));
      AddFits(s.sys.root, step.parent, Bw(s.sys.defPeriod, 0));
    } else {
      RemoveOk(s.sys.root, Ratio(s.sys.root.data), step.tg);
      RemoveFits(s.sys.root, step.tg);
    }
  }

  lemma NextOk(s: State, step: Step)
    requires Inv(s) && Enabled(s, step)
    ensures Inv(Next(s, step))
  {
    hide Inv, TestWrite, VisitNext, CommitChange, Limit, AddChild, Remove;
    match step
    case WriteSysctl(_, _) => WriteOk(s, step);
    case FinishSysctl => WriteOk(s, step);
    case TestSysctl(busy) => TestOk(s, busy);
    case BeginChange(tg, bw) => BeginOk(s, tg, bw);
    case Visit(busy) => VisitOk(s, busy);
    case Commit => CommitOk(s);
    case Create(_) => GroupOk(s, step);
    case Destroy(_) => GroupOk(s, step);
  }

  lemma BeginOk(s: State, tg: Path, bw: Bw)
    requires Inv(s) && Enabled(s, BeginChange(tg, bw))
    ensures Inv(Next(s, BeginChange(tg, bw)))
  {
    hide Limit, Ratio, TreeFits, TreeOk, Tour;
    SameCommitted(s, Next(s, BeginChange(tg, bw)));
  }

  // ----- every step exactly

  /** The writer's steps: the sysctls are in force as soon as they are written; the test passes exactly if they are
      sane, the whole tree is within them and no group with RT tasks is without runtime; a rejected write puts back
      what was there, and an accepted one sets the period of new groups. */
  lemma WriterExact(s: State, step: Step, e: State)
    requires Inv(s) && Enabled(s, step) && (step.WriteSysctl? || step.TestSysctl? || step.FinishSysctl?)
    requires e == Next(s, step)
    ensures e.sys.root == s.sys.root && e.walk == s.walk && e.doubted == s.doubted
    ensures step.WriteSysctl? ==>
      && e.sys == s.sys.(sysPeriod := step.period, sysRuntime := step.runtime)
      && e.write == Unsure(s.sys.sysPeriod, s.sys.sysRuntime)
    ensures step.TestSysctl? ==>
      && e.sys == s.sys
      && (e.write.Passed? <==>
            && s.sys.sysPeriod > 0 && s.sys.sysRuntime <= s.sys.sysPeriod
            && TreeOk(s.sys.root, Limit(s.sys))
            && (s.sys.sysRuntime >= 0 ==> NoneBusy(s.sys.root, Query(None, Bw(0, 0), step.busy))))
      && (!e.write.Passed? ==> e.write == Rejected(s.write.period, s.write.runtime))
    ensures step.FinishSysctl? ==>
      && e.write.NoWrite?
      && e.sys == if s.write.Rejected? then s.sys.(sysPeriod := s.write.period, sysRuntime := s.write.runtime)
                  else s.sys.(defPeriod := 1000 * s.sys.sysPeriod)
  {
    hide Limit, Ratio, Tour, Check, TreeFits, Verdict, AllPass, TreeOk, NoneBusy, WalkOk;
    if step.TestSysctl? {
      var q := Query(None, Bw(0, 0), step.busy);
      VerdictZero(s.sys.root, q, Limit(s.sys), s.sys.sysRuntime >= 0);
      AcceptIff(s.sys.root, Ratio(s.sys.root.data), q, Limit(s.sys), s.sys.sysRuntime >= 0);
    }
  }

  /** The walker's steps: a visit gives the change up exactly if the group does not pass under the sysctls as they are
      at that moment, and goes on to the next call of the tour otherwise; a change that has got through alters its own
      group and nothing else. */
  lemma WalkerExact(s: State, step: Step, e: State)
    requires Inv(s) && Enabled(s, step) && (step.BeginChange? || step.Visit? || step.Commit?) && e == Next(s, step)
    ensures e.write == s.write && e.sys == s.sys.(root := e.sys.root)
    ensures step.BeginChange? ==>
      e.sys == s.sys && e.walk.Walk? && e.walk.tg == step.tg && e.walk.bw == step.bw && e.walk.next == 0
    ensures step.Visit? ==>
      var call := Tour(s.sys.root, [])[s.walk.next];
      var q := Query(Some(s.walk.tg), s.walk.bw, step.busy);
      && e.sys == s.sys
      && (e.walk.NoWalk? <==>
            call.Down? && Valid(s.sys.root, call.tg)
            && Check(s.sys.root, q, Limit(s.sys), s.sys.sysRuntime >= 0, call.tg) != 0)
      && (e.walk.Walk? ==> e.walk.tg == s.walk.tg && e.walk.bw == s.walk.bw && e.walk.next == s.walk.next + 1)
      && (e.walk.Walk? && call == Down([]) ==> (e.walk.doubt <==> s.write.Unsure? || s.write.Rejected?))
      && (e.walk.Walk? && call != Down([]) ==> e.walk.doubt == s.walk.doubt)
    ensures step.Commit? ==>
      && e.walk.NoWalk? && OnlyAt(s.sys.root, e.sys.root, s.walk.tg, s.walk.bw)
      && (e.doubted <==> s.doubted || (s.walk.tg == [] && s.walk.doubt))
    ensures !step.Commit? ==> e.doubted == s.doubted
  {
    hide Limit, Ratio, Tour, Check, TreeFits, Nested, OnlyAt, WalkOk;
    if step.Commit? {
      SetAtOnly(s.sys.root, s.walk.tg, s.walk.bw);
    }
  }

  /** Groups come and go one at a time. */
  lemma GroupExact(s: State, step: Step, e: State)
    requires Enabled(s, step) && (step.Create? || step.Destroy?) && e == Next(s, step)
    ensures e == s.(sys := s.sys.(root := e.sys.root))
    ensures step.Create? ==>
      OnlyKids(s.sys.root, e.sys.root, step.parent,
        [Node(Bw(s.sys.defPeriod, 0), [])] + At(s.sys.root, step.parent).children)
    ensures step.Destroy? ==>
      && Valid(s.sys.root, Parent(step.tg)) && Last(step.tg) < |At(s.sys.root, Parent(step.tg)).children|
      && var kids := At(s.sys.root, Parent(step.tg)).children;
         OnlyKids(s.sys.root, e.sys.root, Parent(step.tg), kids[..Last(step.tg)] + kids[Last(step.tg) + 1..])
  {
    hide OnlyKids, AddChild, Remove;
    if step.Create? {
      AddChildExact(s.sys.root, step.parent, Bw(s.sys.defPeriod, 0));
    } else {
      RemoveExact(s.sys.root, step.tg);
    }
  }

  lemma {:induction false} ExecuteOk(s: State, steps: seq<Step>)
    requires Inv(s)
    ensures Inv(Execute(s, steps))
    decreases |steps|
  {
    hide Inv, Next, Enabled;
    if steps != [] {
      if Enabled(s, steps[0]) {
        NextOk(s, steps[0]);
        ExecuteOk(Next(s, steps[0]), steps[1..]);
      } else {
        ExecuteOk(s, steps[1..]);
      }
    }
  }

  // ----- every interleaving

  function Start(): State
  {
    State(Boot(), NoWrite, NoWalk, true, false)
  }

  lemma StartOk()
    ensures Inv(Start())
  {
    hide TreeOk, Limit;
    BootOk();
    NestedIs(Boot().root, Limit(Boot()));
  }

  /** Over every interleaving of sysctl writes and walks, group by group: children's ratios sum to at most their
      parent's, so that non-nested groups together stay within the root's; and with no write under way all of them
      are within the global limit exactly if the last change passes under the sysctls then in force. That is so
      unless the root group was changed by a walk that tested it while a write had not passed its test. */
  lemma EveryInterleaving(steps: seq<Step>, s: State, a: seq<Path>)
    requires s == Execute(Start(), steps) && AllValid(s.sys.root, a) && Antichain(a)
    ensures SumOf(s.sys.root, a) <= Ratio(s.sys.root.data) <= RATIO_ONE
    ensures s.write.NoWrite? ==> (TreeOk(s.sys.root, Limit(s.sys)) <==> s.kept)
    ensures s.write.NoWrite? && s.kept ==> SumOf(s.sys.root, a) <= Limit(s.sys)
    ensures !s.doubted ==> s.kept
    ensures TreeFits(s.sys.root)
  {
    hide Execute, Limit, Ratio, TreeFits, TreeOk, WalkOk;
    StartOk();
    ExecuteOk(Start(), steps);
    var root := s.sys.root;
    AntichainBound(root, Ratio(root.data), a);
    NestedIs(root, Limit(s.sys));
    TreeSane(root, Ratio(root.data));
    SaneRatio(root.data);
  }

  lemma TreeSane(t: Tree<Bw>, limit: nat)
    requires TreeOk(t, limit)
    ensures Sane(t.data)
  {
  }

  // ----- a change that slips through

  const HALF_WAY: seq<Step> := [WriteSysctl(1_000_000, 2_000_000), BeginChange([], Bw(1_000_000_000, 1_000_000_000))]

  /** A runtime above the period is written, which the test will reject. Before it does, the root group is given all
      of the time; the sysctls are put back, and the root's ratio is above the global one. */
  lemma SlipsThrough(busy: Path -> bool) returns (steps: seq<Step>)
    ensures var e := Execute(Start(), steps);
            && e.write.NoWrite? && e.walk.NoWalk? && e.sys.sysPeriod == 1_000_000 && e.sys.sysRuntime == 950_000
            && !TreeOk(e.sys.root, Limit(e.sys)) && Ratio(e.sys.root.data) == RATIO_ONE && e.doubted
  {
    hide Execute;
    var ends := [TestSysctl(busy), FinishSysctl];
    var middle := [Visit(busy), Visit(busy), Commit];
    steps := HALF_WAY + (middle + ends);
    var s2 := Opened();
    SlipOpen(middle + ends);
    SlipMiddle(s2, busy, ends);
    SlipEnd(busy);
    Ratios();
  }

  /** The root group asks for everything while the sysctls allow twice that. */
  function Opened(): State
  {
    var b := Boot();
    State(b.(sysRuntime := 2_000_000), Unsure(1_000_000, 950_000),
          Walk([], Bw(1_000_000_000, 1_000_000_000), 0, 0, false), true, false)
  }

  function Given(): State
  {
    var b := Boot();
    State(b.(sysRuntime := 2_000_000, root := Node(Bw(1_000_000_000, 1_000_000_000), [])), Unsure(1_000_000, 950_000),
          NoWalk, false, true)
  }

  lemma Ratios()
    ensures Ratio(Bw(1_000_000_000, 1_000_000_000)) == RATIO_ONE
    ensures Ratio(Bw(1_000_000_000, 2_000_000_000)) == 2 * RATIO_ONE
    ensures Ratio(Bw(1_000_000_000, 950_000_000)) < RATIO_ONE
  {
  }

  lemma ExecuteOne(s: State, step: Step, rest: seq<Step>)
    requires Enabled(s, step)
    ensures Execute(s, [step] + rest) == Execute(Next(s, step), rest)
  {
    hide Next, Enabled;
    assert ([step] + rest)[1..] == rest;
  }

  lemma SlipOpen(rest: seq<Step>)
    ensures Execute(Start(), HALF_WAY + rest) == Execute(Opened(), rest)
  {
    hide Execute;
    var a, b := HALF_WAY[0], HALF_WAY[1];
    assert HALF_WAY + rest == [a] + ([b] + rest);
    ExecuteOne(Start(), a, [b] + rest);
    ExecuteOne(Next(Start(), a), b, rest);
  }

  lemma SlipMiddle(s: State, busy: Path -> bool, rest: seq<Step>)
    requires s == Opened()
    ensures Execute(s, [Visit(busy), Visit(busy), Commit] + rest) == Execute(Given(), rest)
  {
    hide Execute, Ratio;
    Ratios();
    var v, c := Visit(busy), Commit;
    assert [v, v, c] + rest == [v] + ([v] + ([c] + rest));
    assert Calls(s) == [Down([]), Up([])];
    ExecuteOne(s, v, [v] + ([c] + rest));
    var s1 := Next(s, v);
    assert Calls(s1) == [Down([]), Up([])];
    ExecuteOne(s1, v, [c] + rest);
    var s2 := Next(s1, v);
    assert Calls(s2) == [Down([]), Up([])];
    ExecuteOne(s2, c, rest);
  }

  lemma SlipEnd(busy: Path -> bool)
    ensures Execute(Given(), [TestSysctl(busy), FinishSysctl])
         == Given().(write := NoWrite, sys := Given().sys.(sysRuntime := 950_000))
  {
    hide Execute, Ratio;
    var t, f := TestSysctl(busy), FinishSysctl;
    assert [t, f] == [t] + ([f] + []);
    ExecuteOne(Given(), t, [f] + []);
    ExecuteOne(Next(Given(), t), f, []);
    ExecuteNone(Next(Next(Given(), t), f));
  }

  lemma ExecuteNone(s: State)
    ensures Execute(s, []) == s
  {
  }
}
