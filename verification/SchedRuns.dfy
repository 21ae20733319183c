/**
 Whole runs of the scheduler core on any number of CPUs: wake-ups, sleeps, switches, ticks, yields, changes of
 policy, priority, nice value and group, and migrations, in any order.
 */
module SchedRuns {
  import opened Basics
  import opened WrrRotation
  import opened SchedClasses
  import opened SchedCell
  import opened SchedAccounts

  datatype State = State(hz: nat, rqs: seq<Rq>, tasks: seq<Task>)

  function At(s: State, r: nat): Cell
    requires r < |s.rqs|
  {
    Cell(s.rqs[r], s.tasks)
  }

  function Put(s: State, r: nat, c: Cell): State
    requires r < |s.rqs|
  {
    s.(rqs := s.rqs[r := c.rq], tasks := c.tasks)
  }

  /** `d`, `d1`, `d2` are what each `update_rq_clock` on the way adds to `clock_task`. */
  datatype Step =
    | Elapse(r: nat, d: nat)
    | TickStep(r: nat, d: nat, seen: Seen)
    | YieldStep(r: nat)
    | Wake(p: nat, cpu: nat, d: nat)
    | SleepStep(r: nat, d: nat)
    | SwitchStep(r: nat, k: Picks, d: nat)
    | Alter(p: nat, ch: Change, d1: nat, d2: nat)
    | Migrate(p: nat, dest: nat, d1: nat, d2: nat)

  predicate KnownAt(s: State, r: nat)
  {
    r < |s.rqs| && CurrKnown(At(s, r))
  }

  predicate KnownTask(s: State, p: nat)
  {
    p < |s.tasks| && KnownAt(s, s.tasks[p].cpu)
  }

  predicate Running(s: State, p: nat)
    requires KnownTask(s, p)
  {
    s.rqs[s.tasks[p].cpu].curr == Some(p)
  }

  predicate CurrQueued(s: State, r: nat)
    requires KnownAt(s, r)
  {
    s.rqs[r].curr.Some? ==> s.tasks[s.rqs[r].curr.value].onRq
  }

  /** When a step can happen: ticks and yields come from a task that is still queued, only a blocked task that has
      left its CPU is woken, and only a task that is not running is migrated. */
  predicate Enabled(s: State, step: Step)
  {
    match step
    case Elapse(r, _) => KnownAt(s, r)
    case TickStep(r, _, _) => KnownAt(s, r) && CurrQueued(s, r)
    case YieldStep(r) => KnownAt(s, r) && CurrQueued(s, r)
    case Wake(p, cpu, _) => KnownTask(s, p) && KnownAt(s, cpu) && !s.tasks[p].onRq && !Running(s, p)
    case SleepStep(r, _) => KnownAt(s, r) && s.rqs[r].curr.Some? && CurrQueued(s, r)
    case SwitchStep(r, k, _) =>
      KnownAt(s, r) && PicksOk(s.rqs[r], k) && (s.rqs[r].wrr != [] ==> s.rqs[r].wrr[0] < |s.tasks|)
    case Alter(p, _, _, _) => KnownTask(s, p)
    case Migrate(p, dest, _, _) => KnownTask(s, p) && KnownAt(s, dest) && !Running(s, p)
  }

  function SetCpu(s: State, p: nat, cpu: nat): State
    requires p < |s.tasks|
  {
    s.(tasks := s.tasks[p := s.tasks[p].(cpu := cpu)])
  }

  /** `dequeue_task` on the CPU the task is on. */
  function TakeOut(s: State, p: nat, d: nat): State
    requires KnownTask(s, p)
  {
    var r := s.tasks[p].cpu;
    Put(s, r, DequeueTask(AddClock(At(s, r), d), p))
  }

  function PutIn(s: State, p: nat, cpu: nat, d: nat): State
    requires p < |s.tasks| && KnownAt(s, cpu)
  {
    Put(s, cpu, EnqueueTask(AddClock(At(s, cpu), d), p, false))
  }

  lemma TakeOutKeepsKnown(s: State, p: nat, d: nat, cpu: nat)
    requires KnownTask(s, p) && KnownAt(s, cpu)
    ensures |TakeOut(s, p, d).tasks| == |s.tasks| && KnownAt(TakeOut(s, p, d), cpu)
    ensures KnownAt(SetCpu(TakeOut(s, p, d), p, cpu), cpu)
  {
  }

  function Next(s: State, step: Step): State
    requires Enabled(s, step)
  {
    match step
    case Elapse(r, d) => Put(s, r, AddClock(At(s, r), d))
    case TickStep(r, d, seen) => Put(s, r, TickTask(At(s, r), PathRefill(seen, s.hz), d))
    case YieldStep(r) => Put(s, r, Yield(At(s, r)))
    case Wake(p, cpu, d) =>
      var m := SetCpu(s, p, cpu);
      Put(m, cpu, Activate(At(m, cpu), p, d))
    case SleepStep(r, d) => Put(s, r, Sleep(At(s, r), d))
    case SwitchStep(r, k, d) => Put(s, r, Switch(At(s, r), k, d))
    case Alter(p, ch, d1, d2) => Put(s, s.tasks[p].cpu, ChangeTask(At(s, s.tasks[p].cpu), p, ch, d1, d2))
    case Migrate(p, dest, d1, d2) =>
      if !s.tasks[p].onRq then s
      else
        TakeOutKeepsKnown(s, p, d1, dest);
        PutIn(SetCpu(TakeOut(s, p, d1), p, dest), p, dest, d2)
  }

  function Execute(s: State, steps: seq<Step>): State
    decreases |steps|
  {
    if steps == [] then s
    else Execute(if Enabled(s, steps[0]) then Next(s, steps[0]) else s, steps[1..])
  }

  // ---- The invariant ----

  ghost predicate RqOk(s: State, r: nat, out: Option<nat>)
    requires r < |s.rqs|
  {
    CellInv(At(s, r), r, out) && Accounted(At(s, r))
  }

  /** Every run queue is in order, apart from task `out` being in no queue. */
  ghost predicate InvOut(s: State, out: Option<nat>)
  {
    && (forall p :: 0 <= p < |s.tasks| ==> s.tasks[p].cpu < |s.rqs|)
    && forall r: nat :: r < |s.rqs| ==> RqOk(s, r, out)
  }

  /** An operation on one run queue that is right there leaves all the others right. */
  lemma Lift(s: State, r: nat, c: Cell, before: Option<nat>, after: Option<nat>)
    requires InvOut(s, before) && r < |s.rqs|
    requires CellInv(c, r, after) && Accounted(c) && StaysHere(s.tasks, c.tasks, r)
    requires forall o :: o in {before, after} && o.Some? && o.value < |s.tasks| ==> s.tasks[o.value].cpu == r
    requires before.Some? ==> before.value < |s.tasks|
    requires after.Some? ==> after.value < |s.tasks|
    ensures InvOut(Put(s, r, c), after)
  {
    hide Counts, TasksOk;
    var e := Put(s, r, c);
    forall q: nat | q < |e.rqs| ensures RqOk(e, q, after) {
      if q != r {
        assert RqOk(s, q, before);
        Elsewhere(s.rqs[q], s.tasks, c.tasks, q, r, before, after);
      }
    }
  }

  /** A run queue whose tasks did not change is as it was. */
  lemma Elsewhere(rq: Rq, a: seq<Task>, b: seq<Task>, q: nat, r: nat, before: Option<nat>, after: Option<nat>)
    requires q != r && StaysHere(a, b, r) && TasksOk(b)
    requires CellInv(Cell(rq, a), q, before) && Accounted(Cell(rq, a))
    requires before.Some? ==> before.value < |a| && a[before.value].cpu == r
    requires after.Some? ==> after.value < |a| && a[after.value].cpu == r
    ensures CellInv(Cell(rq, b), q, after) && Accounted(Cell(rq, b))
  {
    hide Counts, TasksOk;
  }

  /** A task in no queue and running nowhere can be sent to another CPU. */
  lemma SetCpuInv(s: State, p: nat, cpu: nat)
    requires InvOut(s, Some(p)) && KnownTask(s, p) && cpu < |s.rqs| && !Running(s, p)
    ensures InvOut(SetCpu(s, p, cpu), Some(p))
  {
    hide Counts;
    var e := SetCpu(s, p, cpu);
    forall r: nat | r < |e.rqs| ensures RqOk(e, r, Some(p)) {
      assert RqOk(s, r, Some(p));
      assert s.rqs[r].curr != Some(p);
    }
  }

  lemma AbsentOut(s: State, p: nat)
    requires p < |s.tasks| && !s.tasks[p].onRq
    ensures InvOut(s, None) <==> InvOut(s, Some(p))
  {
    hide CellInv, Accounted;
    forall r: nat | r < |s.rqs| ensures RqOk(s, r, None) <==> RqOk(s, r, Some(p)) {
      AbsentInv(At(s, r), p, r);
    }
  }

  lemma MigrateInv(s: State, p: nat, dest: nat, d1: nat, d2: nat)
    requires InvOut(s, None) && Enabled(s, Migrate(p, dest, d1, d2)) && s.tasks[p].onRq
    ensures InvOut(Next(s, Migrate(p, dest, d1, d2)), None)
  {
    hide AddClock, DequeueTask, EnqueueTask, CellInv, Accounted;
    var src := s.tasks[p].cpu;
    var c := At(s, src);
    assert RqOk(s, src, None);
    AddClockOk(c, d1, src, None);
    AddClockAcct(c, d1);
    var a := AddClock(c, d1);
    DequeueInv(a, p, src);
    DequeueAcct(a, p);
    var out := DequeueTask(a, p);
    TakeOutKeepsKnown(s, p, d1, dest);
    Lift(s, src, out, None, Some(p));
    var s1 := TakeOut(s, p, d1);
    assert s1.rqs[src].curr == s.rqs[src].curr;
    SetCpuInv(s1, p, dest);
    var s2 := SetCpu(s1, p, dest);
    assert RqOk(s2, dest, Some(p));
    AddClockOk(At(s2, dest), d2, dest, Some(p));
    AddClockAcct(At(s2, dest), d2);
    var b := AddClock(At(s2, dest), d2);
    EnqueueInv(b, p, false, dest);
    EnqueueAcct(b, p, false);
    Lift(s2, dest, EnqueueTask(b, p, false), Some(p), None);
  }

  lemma WakeInv(s: State, p: nat, cpu: nat, d: nat)
    requires InvOut(s, None) && Enabled(s, Wake(p, cpu, d))
    ensures InvOut(Next(s, Wake(p, cpu, d)), None)
  {
    hide Activate, CellInv, Accounted;
    AbsentOut(s, p);
    SetCpuInv(s, p, cpu);
    var m := SetCpu(s, p, cpu);
    AbsentOut(m, p);
    var c := At(m, cpu);
    assert RqOk(m, cpu, None);
    ActivateInv(c, p, d, cpu);
    ActivateAcct(c, p, d);
    Lift(m, cpu, Activate(c, p, d), None, None);
  }

  /** Every step keeps every task in exactly the queue it belongs to, the counters exact and the accounts exact. */
  lemma NextInv(s: State, step: Step)
    requires InvOut(s, None) && Enabled(s, step)
    ensures InvOut(Next(s, step), None)
  {
    hide AddClock, TickTask, Yield, Sleep, Switch, ChangeTask, Activate, CellInv, Accounted, StaysHere;
    match step
    case Wake(p, cpu, d) => WakeInv(s, p, cpu, d);
    case Migrate(p, dest, d1, d2) =>
      if s.tasks[p].onRq {
        MigrateInv(s, p, dest, d1, d2);
      }
    case Alter(p, ch, d1, d2) =>
      var r := s.tasks[p].cpu;
      assert RqOk(s, r, None);
      ChangeTaskInv(At(s, r), p, ch, d1, d2, r);
      ChangeTaskAcct(At(s, r), p, ch, d1, d2);
      Lift(s, r, ChangeTask(At(s, r), p, ch, d1, d2), None, None);
    case _ =>
      LocalInv(s, step);
  }

  lemma LocalInv(s: State, step: Step)
    requires InvOut(s, None) && Enabled(s, step)
    requires !step.Wake? && !step.Migrate? && !step.Alter?
    ensures InvOut(Next(s, step), None)
  {
    hide AddClock, TickTask, Yield, Sleep, Switch, CellInv, Accounted;
    var r := step.r;
    var c := At(s, r);
    assert RqOk(s, r, None);
    var e := Next(s, step);
    match step
    case Elapse(_, d) =>
      AddClockOk(c, d, r, None);
      AddClockAcct(c, d);
      Lift(s, r, AddClock(c, d), None, None);
    case TickStep(_, d, seen) =>
      var refill := PathRefill(seen, s.hz);
      TickInv(c, refill, d, r);
      TickAcct(c, refill, d);
      Lift(s, r, TickTask(c, refill, d), None, None);
    case YieldStep(_) =>
      YieldInv(c, r);
      YieldAcct(c);
      Lift(s, r, Yield(c), None, None);
    case SleepStep(_, d) =>
      SleepInv(c, d, r);
      SleepAcct(c, d);
      Lift(s, r, Sleep(c, d), None, None);
    case SwitchStep(_, k, d) =>
      SwitchInv(c, k, d, r);
      SwitchAcct(c, k, d, r);
      Lift(s, r, Switch(c, k, d), None, None);
  }

  // ---- Execution time over all CPUs ----

  /** What the current WRR task has run since it was last charged. */
  function Uncharged(c: Cell): int
  {
    if CurrKnown(c) && WrrCurrent(c) then c.rq.clock - c.tasks[c.rq.curr.value].execStart else 0
  }

  function SumCharged(rqs: seq<Rq>): int
  {
    if rqs == [] then 0 else rqs[0].charged + SumCharged(rqs[1..])
  }

  /** Clock time that passed with a WRR task current. */
  function SumElapsed(rqs: seq<Rq>): int
  {
    if rqs == [] then 0 else rqs[0].elapsed + SumElapsed(rqs[1..])
  }

  function SumUncharged(rqs: seq<Rq>, tasks: seq<Task>): int
  {
    if rqs == [] then 0 else Uncharged(Cell(rqs[0], tasks)) + SumUncharged(rqs[1..], tasks)
  }

  lemma {:induction false} SumChargedSet(rqs: seq<Rq>, r: nat, rq: Rq)
    requires r < |rqs|
    ensures SumCharged(rqs[r := rq]) == SumCharged(rqs) - rqs[r].charged + rq.charged
  {
    if r == 0 {
      assert rqs[r := rq][1..] == rqs[1..];
    } else {
      assert rqs[r := rq][1..] == rqs[1..][r - 1 := rq];
      SumChargedSet(rqs[1..], r - 1, rq);
    }
  }

  lemma {:induction false} AccountedSums(rqs: seq<Rq>, tasks: seq<Task>)
    requires forall r :: 0 <= r < |rqs| ==> Accounted(Cell(rqs[r], tasks))
    ensures SumCharged(rqs) + SumUncharged(rqs, tasks) == SumElapsed(rqs)
  {
    if rqs != [] {
      assert Accounted(Cell(rqs[0], tasks));
      forall r | 0 <= r < |rqs[1..]| ensures Accounted(Cell(rqs[1..][r], tasks)) {
        assert rqs[1..][r] == rqs[r + 1];
      }
      AccountedSums(rqs[1..], tasks);
    }
  }

  /** Tasks gain exactly what is charged. */
  predicate Gains(a: State, b: State)
  {
    SumExec(b.tasks) - SumExec(a.tasks) == SumCharged(b.rqs) - SumCharged(a.rqs)
  }

  lemma PutGains(s: State, r: nat, c: Cell)
    requires r < |s.rqs| && Charges(At(s, r), c)
    ensures Gains(s, Put(s, r, c))
  {
    SumChargedSet(s.rqs, r, c.rq);
  }

  lemma SetCpuGains(s: State, p: nat, cpu: nat)
    requires p < |s.tasks|
    ensures Gains(s, SetCpu(s, p, cpu))
  {
    SumSet(s.tasks, p, s.tasks[p].(cpu := cpu));
  }

  lemma NextGains(s: State, step: Step)
    requires InvOut(s, None) && Enabled(s, step)
    ensures Gains(s, Next(s, step))
  {
    hide AddClock, TickTask, Yield, Sleep, Switch, ChangeTask, Activate, DequeueTask, EnqueueTask, CellInv,
      SumExec, SumCharged, Charges;
    match step
    case Wake(p, cpu, d) =>
      var m := SetCpu(s, p, cpu);
      assert RqOk(s, cpu, None);
      SetCpuGains(s, p, cpu);
      AbsentOut(s, p);
      SetCpuInv(s, p, cpu);
      assert RqOk(m, cpu, Some(p));
      ActivateAcct(At(m, cpu), p, d);
      PutGains(m, cpu, Activate(At(m, cpu), p, d));
    case Migrate(p, dest, d1, d2) =>
      if s.tasks[p].onRq {
        MigrateGains(s, p, dest, d1, d2);
      } else {
        assert Gains(s, s);
      }
    case Alter(p, ch, d1, d2) =>
      var r := s.tasks[p].cpu;
      assert RqOk(s, r, None);
      ChangeTaskAcct(At(s, r), p, ch, d1, d2);
      PutGains(s, r, ChangeTask(At(s, r), p, ch, d1, d2));
    case _ =>
      LocalGains(s, step);
  }

  lemma LocalGains(s: State, step: Step)
    requires InvOut(s, None) && Enabled(s, step)
    requires !step.Wake? && !step.Migrate? && !step.Alter?
    ensures Gains(s, Next(s, step))
  {
    hide AddClock, TickTask, Yield, Sleep, Switch, CellInv, Accounted, SumExec, SumCharged, Charges;
    var r := step.r;
    var c := At(s, r);
    assert RqOk(s, r, None);
    match step
    case Elapse(_, d) =>
      AddClockAcct(c, d);
      PutGains(s, r, AddClock(c, d));
    case TickStep(_, d, seen) =>
      TickAcct(c, PathRefill(seen, s.hz), d);
      PutGains(s, r, TickTask(c, PathRefill(seen, s.hz), d));
    case YieldStep(_) =>
      YieldAcct(c);
      PutGains(s, r, Yield(c));
    case SleepStep(_, d) =>
      SleepAcct(c, d);
      PutGains(s, r, Sleep(c, d));
    case SwitchStep(_, k, d) =>
      SwitchAcct(c, k, d, r);
      PutGains(s, r, Switch(c, k, d));
  }

  lemma MigrateGains(s: State, p: nat, dest: nat, d1: nat, d2: nat)
    requires InvOut(s, None) && Enabled(s, Migrate(p, dest, d1, d2)) && s.tasks[p].onRq
    ensures Gains(s, Next(s, Migrate(p, dest, d1, d2)))
  {
    hide AddClock, DequeueTask, EnqueueTask, CellInv, Accounted, SumExec, SumCharged, SumElapsed;
    var src := s.tasks[p].cpu;
    var c := At(s, src);
    assert RqOk(s, src, None);
    AddClockAcct(c, d1);
    AccountedKnown(AddClock(c, d1));
    DequeueAcct(AddClock(c, d1), p);
    var out := DequeueTask(AddClock(c, d1), p);
    PutGains(s, src, out);
    TakeOutKeepsKnown(s, p, d1, dest);
    var s1 := TakeOut(s, p, d1);
    SetCpuGains(s1, p, dest);
    var s2 := SetCpu(s1, p, dest);
    var b := At(s2, dest);
    PlainGains(b, p, d2);
    PutGains(s2, dest, EnqueueTask(AddClock(b, d2), p, false));
  }

  /** Neither the clock nor an enqueue charges anything. */
  lemma PlainGains(c: Cell, p: nat, d: nat)
    requires CurrKnown(c) && p < |c.tasks|
    ensures AddClock(c, d).tasks == c.tasks
    ensures Charges(c, EnqueueTask(AddClock(c, d), p, false))
  {
    hide SumExec;
  }

  // ---- Whole runs ----

  /** All queues empty, the idle tasks running, nothing charged. */
  ghost predicate Boot(s: State)
  {
    && (forall p :: 0 <= p < |s.tasks| ==> !s.tasks[p].onRq && s.tasks[p].cpu < |s.rqs| && TaskOk(s.tasks[p]))
    && forall r :: 0 <= r < |s.rqs| ==>
         exists clock :: s.rqs[r] == Rq({}, {}, {}, [], 0, 0, 0, None, clock, 0, 0)
  }

  lemma BootInv(s: State)
    requires Boot(s)
    ensures InvOut(s, None)
  {
    forall r: nat | r < |s.rqs| ensures RqOk(s, r, None) {
      var clock :| s.rqs[r] == Rq({}, {}, {}, [], 0, 0, 0, None, clock, 0, 0);
      assert forall cls, p :: !In(s.rqs[r], cls, p);
    }
  }

  lemma {:induction false} ExecuteInv(s: State, steps: seq<Step>)
    requires InvOut(s, None)
    ensures InvOut(Execute(s, steps), None) && Gains(s, Execute(s, steps))
    decreases |steps|
  {
    hide RqOk, Next, Enabled, SumExec, SumCharged;
    if steps == [] {
    } else if Enabled(s, steps[0]) {
      NextInv(s, steps[0]);
      NextGains(s, steps[0]);
      ExecuteInv(Next(s, steps[0]), steps[1..]);
    } else {
      ExecuteInv(s, steps[1..]);
    }
  }

  /** In every state any run reaches: a task with `on_rq` set is in exactly the queue of its class on its CPU, any
      other task is in none, and every counter is the length it stands for. */
  lemma EveryRunPlaced(s: State, steps: seq<Step>, r: nat)
    requires Boot(s) && r < |Execute(s, steps).rqs|
    ensures var e := Execute(s, steps);
            && Distinct(e.rqs[r].wrr)
            && e.rqs[r].wrrNr == |e.rqs[r].wrr|
            && e.rqs[r].nrRunning == |e.rqs[r].stop| + |e.rqs[r].rt| + |e.rqs[r].wrr| + |e.rqs[r].fair|
            && e.rqs[r].fairNr == |e.rqs[r].fair|
            && forall cls, p: nat ::
                 In(e.rqs[r], cls, p) <==>
                 p < |e.tasks| && e.tasks[p].onRq && e.tasks[p].cls == cls && e.tasks[p].cpu == r
  {
    BootInv(s);
    ExecuteInv(s, steps);
    assert RqOk(Execute(s, steps), r, None);
  }

  /** In every state any run reaches, all tasks together have gained exactly the clock time that passed with a WRR
      task current, less what the tasks current now have run since they were last charged. */
  lemma EveryRunCharged(s: State, steps: seq<Step>)
    requires Boot(s)
    ensures var e := Execute(s, steps);
            SumExec(e.tasks) - SumExec(s.tasks) + SumUncharged(e.rqs, e.tasks) == SumElapsed(e.rqs)
  {
    hide SumExec, SumElapsed;
    BootInv(s);
    ExecuteInv(s, steps);
    var e := Execute(s, steps);
    forall r | 0 <= r < |e.rqs| ensures Accounted(Cell(e.rqs[r], e.tasks)) {
      assert RqOk(e, r, None);
    }
    AccountedSums(e.rqs, e.tasks);
    BootCharged(s.rqs);
  }

  lemma {:induction false} BootCharged(rqs: seq<Rq>)
    requires forall r :: 0 <= r < |rqs| ==> rqs[r].charged == 0
    ensures SumCharged(rqs) == 0
  {
    if rqs != [] {
      BootCharged(rqs[1..]);
    }
  }

  // ---- Entering the WRR class ----

  function FairTask(): Task
  {
    Task(false, Fair, Normal, 0, 120, 120, 0, FOREGROUP, 0, 0, 0)
  }

  function OneCpu(hz: nat): State
  {
    State(hz, [Rq({}, {}, {}, [], 0, 0, 0, None, 0, 0, 0)], [FairTask()])
  }

  function Woken(hz: nat): State
  {
    State(hz, [Rq({}, {}, {0}, [], 0, 1, 1, None, 0, 0, 0)], [FairTask().(onRq := true)])
  }

  function Entered(hz: nat): State
  {
    State(hz, [Rq({}, {}, {}, [0], 1, 0, 1, None, 0, 0, 0)],
          [FairTask().(onRq := true, cls := Wrr, policy := WrrPolicy)])
  }

  /** A task wakes up in the fair class, is moved to the WRR class, and runs. */
  const WAKE := Wake(0, 0, 0)
  const ENTER := Alter(0, ToPolicy(WrrPolicy, 0, 140), 0, 0)
  const RUN := SwitchStep(0, Picks(None, None, None), 0)

  /** Nothing sets the slice on entry to the class: whatever HZ is, a task of the foreground group that starts with a
      slice of zero gets to run with it, and its first turn lasts 2^32 ticks. */
  lemma FirstTurnWraps(hz: nat)
    ensures Boot(OneCpu(hz))
    ensures var e := Execute(OneCpu(hz), [WAKE, ENTER, RUN]);
            && |e.rqs| == 1 && |e.tasks| == 1
            && e.rqs[0].curr == Some(0) && e.rqs[0].wrr == [0]
            && e.tasks[0].cls.Wrr? && e.tasks[0].group == FOREGROUP && e.tasks[0].slice == 0
            && Lasts(e.tasks[0].slice) == WRAP
  {
    hide Execute, Next, Enabled;
    EntryWake(hz);
    EntryChange(hz);
    EntrySwitch(hz);
    assert [WAKE, ENTER, RUN] == [WAKE] + ([ENTER] + ([RUN] + []));
    ExecuteOne(OneCpu(hz), WAKE, [ENTER] + ([RUN] + []));
    ExecuteOne(Woken(hz), ENTER, [RUN] + []);
    ExecuteOne(Entered(hz), RUN, []);
    ExecuteNone(Next(Entered(hz), RUN));
  }

  lemma ExecuteOne(s: State, step: Step, rest: seq<Step>)
    requires Enabled(s, step)
    ensures Execute(s, [step] + rest) == Execute(Next(s, step), rest)
  {
    hide Next, Enabled;
    assert ([step] + rest)[1..] == rest;
  }

  lemma ExecuteNone(s: State)
    ensures Execute(s, []) == s
  {
  }

  lemma EntryWake(hz: nat)
    ensures Enabled(OneCpu(hz), WAKE) && Next(OneCpu(hz), WAKE) == Woken(hz)
  {
    var s := OneCpu(hz);
    assert SetCpu(s, 0, 0) == s;
    assert {} + {0} == {0};
  }

  lemma EntryChange(hz: nat)
    ensures Enabled(Woken(hz), ENTER) && Next(Woken(hz), ENTER) == Entered(hz)
  {
    var s := Woken(hz);
    var c := At(s, 0);
    assert AddClock(c, 0) == c;
    var out := DequeueTask(c, 0);
    assert {0} - {0} == {};
    assert out == Cell(Rq({}, {}, {}, [], 0, 0, 0, None, 0, 0, 0), c.tasks);
    var t := Altered(c.tasks[0], ENTER.ch);
    assert t == Entered(hz).tasks[0];
    var changed := SetTask(out, 0, t);
    assert changed.tasks == [t];
    assert AddClock(changed, 0) == changed;
    assert Link([], 0, false) == [0];
    assert EnqueueTask(changed, 0, false) == At(Entered(hz), 0);
    assert Finish(out, 0, ENTER.ch, false, 0, false) == At(Entered(hz), 0);
    assert !Refused(c.tasks[0], ENTER.ch);
    assert ChangeTask(c, 0, ENTER.ch, 0, 0) == At(Entered(hz), 0);
  }

  lemma EntrySwitch(hz: nat)
    ensures Enabled(Entered(hz), RUN)
    ensures var e := Next(Entered(hz), RUN);
            && |e.rqs| == 1 && |e.tasks| == 1
            && e.rqs[0].curr == Some(0) && e.rqs[0].wrr == [0]
            && e.tasks[0].cls.Wrr? && e.tasks[0].group == FOREGROUP && e.tasks[0].slice == 0
  {
  }

  // ---- Slices ----

  predicate SameSlices(a: seq<Task>, b: seq<Task>)
  {
    |a| == |b| && forall p :: 0 <= p < |a| ==> b[p].slice == a[p].slice
  }

  lemma DequeueSlices(c: Cell, p: nat, d: nat)
    requires p < |c.tasks| && CurrKnown(c)
    ensures SameSlices(c.tasks, DequeueTask(AddClock(c, d), p).tasks)
    ensures DequeueTask(AddClock(c, d), p).rq.curr == c.rq.curr
  {
    hide Without;
  }

  lemma PutPrevSlices(c: Cell, p: nat)
    requires p < |c.tasks| && CurrKnown(c)
    ensures SameSlices(c.tasks, PutPrevTask(c, p).tasks)
    ensures PutPrevTask(c, p).rq == c.rq.(charged := PutPrevTask(c, p).rq.charged)
  {
  }

  lemma FinishSlices(c: Cell, p: nat, ch: Change, restart: bool, d2: nat, head: bool)
    requires p < |c.tasks| && CurrKnown(c) && (restart ==> c.rq.curr.Some?)
    ensures SameSlices(c.tasks, Finish(c, p, ch, restart, d2, head).tasks)
  {
    hide EnqueueTask, Altered;
    AlteredSlice(c.tasks[p], ch);
    var changed := SetTask(c, p, Altered(c.tasks[p], ch));
    var reset := if restart then SetCurrTask(changed) else changed;
    EnqueueTasks(AddClock(reset, d2), p, head);
  }

  lemma EnqueueTasks(c: Cell, p: nat, head: bool)
    requires p < |c.tasks|
    ensures EnqueueTask(c, p, head).tasks == c.tasks && EnqueueTask(c, p, head).rq.curr == c.rq.curr
  {
    hide Link;
  }

  lemma AlteredSlice(t: Task, ch: Change)
    ensures Altered(t, ch).slice == t.slice
  {
  }

  lemma ChangeTaskSlices(c: Cell, p: nat, ch: Change, d1: nat, d2: nat)
    requires p < |c.tasks| && CurrKnown(c)
    ensures SameSlices(c.tasks, ChangeTask(c, p, ch, d1, d2).tasks)
  {
    hide AddClock, DequeueTask, PutPrevTask, Finish, Refused;
    var t := c.tasks[p];
    var restart := c.rq.curr == Some(p) && !ch.ToNice?;
    AddClockTasks(c, d1);
    DequeueSlices(c, p, d1);
    var out := if t.onRq then DequeueTask(AddClock(c, d1), p) else c;
    PutPrevSlices(out, p);
    var put := if restart then PutPrevTask(out, p) else out;
    FinishSlices(put, p, ch, restart, d2, ch.ToPrio? && t.prio < ch.prio);
  }

  lemma SwitchSlices(c: Cell, k: Picks, d: nat)
    requires CurrKnown(c) && (c.rq.wrr != [] ==> c.rq.wrr[0] < |c.tasks|)
    ensures SameSlices(c.tasks, Switch(c, k, d).tasks)
  {
    hide PutPrevTask, Best;
    var a := AddClock(c, d);
    if a.rq.curr.Some? {
      PutPrevSlices(a, a.rq.curr.value);
    }
  }

  /** No operation of the core sets a slice, entry to the class included: only the tick does. */
  lemma SlicesKept(s: State, step: Step)
    requires Enabled(s, step) && !step.TickStep?
    ensures SameSlices(s.tasks, Next(s, step).tasks)
  {
    hide AddClock, DequeueTask, EnqueueTask, ChangeTask, Switch, TickTask, RequeueWrr, Best;
    match step
    case Elapse(r, d) => AddClockTasks(At(s, r), d);
    case YieldStep(r) =>
      YieldTasks(At(s, r));
    case Wake(p, cpu, d) =>
      var c := At(SetCpu(s, p, cpu), cpu);
      AddClockTasks(c, d);
      EnqueueTasks(AddClock(c, d), p, false);
    case SleepStep(r, d) => DequeueSlices(At(s, r), s.rqs[r].curr.value, d);
    case SwitchStep(r, k, d) => SwitchSlices(At(s, r), k, d);
    case Alter(p, ch, d1, d2) => ChangeTaskSlices(At(s, s.tasks[p].cpu), p, ch, d1, d2);
    case Migrate(p, dest, d1, d2) =>
      if s.tasks[p].onRq {
        TakeOutKeepsKnown(s, p, d1, dest);
        DequeueSlices(At(s, s.tasks[p].cpu), p, d1);
        var c := At(SetCpu(TakeOut(s, p, d1), p, dest), dest);
        AddClockTasks(c, d2);
        EnqueueTasks(AddClock(c, d2), p, false);
      }
  }

  lemma AddClockTasks(c: Cell, d: nat)
    requires CurrKnown(c)
    ensures AddClock(c, d).tasks == c.tasks && AddClock(c, d).rq.curr == c.rq.curr
  {
  }

  lemma YieldTasks(c: Cell)
    requires CurrKnown(c)
    ensures Yield(c).tasks == c.tasks
  {
    hide Link, Without;
  }
}
