/**
 Each step of the scheduler core exactly: where the task concerned goes, what becomes of its slice and times, how far
 the clock moves, and that everything else stays.
 */
module SchedSteps {
  import opened Basics
  import WrrRotation
  import opened SchedClasses
  import opened SchedCell
  import opened SchedChanges
  import opened SchedRuns

  // ---- One run queue ----

  /** The clock moves by d, and the WRR time with it exactly if a WRR task is current. */
  ghost predicate Elapsed(c: Cell, e: Cell, d: nat)
    requires CurrKnown(c)
  {
    && e.tasks == c.tasks
    && e.rq == c.rq.(clock := c.rq.clock + d, elapsed := e.rq.elapsed)
    && e.rq.elapsed == c.rq.elapsed + if c.rq.curr.Some? && c.tasks[c.rq.curr.value].cls.Wrr? then d else 0
  }

  lemma AddClockExact(c: Cell, d: nat)
    requires CurrKnown(c)
    ensures Elapsed(c, AddClock(c, d), d)
  {
  }

  /** What the current WRR task has run since it was last looked at is added to its time and to no other's. */
  lemma UpdateCurrExact(c: Cell)
    requires CurrKnown(c)
    ensures var e := UpdateCurrWrr(c);
            if c.rq.curr.None? || !c.tasks[c.rq.curr.value].cls.Wrr? then e == c
            else
              var p := c.rq.curr.value;
              var ran := if c.rq.clock > c.tasks[p].execStart then c.rq.clock - c.tasks[p].execStart else 0;
              && |e.tasks| == |c.tasks|
              && (forall q :: 0 <= q < |c.tasks| && q != p ==> e.tasks[q] == c.tasks[q])
              && e.tasks[p] == c.tasks[p].(sumExec := c.tasks[p].sumExec + ran, execStart := c.rq.clock)
              && e.rq == c.rq.(charged := c.rq.charged + ran)
  {
  }

  /** The tick of a WRR task takes one off its slice; when that makes zero the slice is refilled, and the task goes to
      the tail if it is not alone. The tick of any other task only moves the clock. */
  ghost predicate Ticked(c: Cell, e: Cell, refill: nat, d: nat)
    requires CurrKnown(c)
  {
    if !WrrCurrent(c) then Elapsed(c, e, d)
    else
      var p := c.rq.curr.value;
      var left := if c.tasks[p].slice == 0 then 0xFFFF_FFFF else c.tasks[p].slice - 1;
      && |e.tasks| == |c.tasks|
      && (forall q :: 0 <= q < |c.tasks| && q != p ==> e.tasks[q] == c.tasks[q])
      && e.tasks[p] == c.tasks[p].(slice := if left != 0 then left else refill, execStart := c.rq.clock + d,
                                   sumExec := e.tasks[p].sumExec)
      && e.rq == c.rq.(clock := c.rq.clock + d, wrr := e.rq.wrr, elapsed := e.rq.elapsed, charged := e.rq.charged)
      && e.rq.wrr == if left == 0 && |c.rq.wrr| >= 2 then Without(c.rq.wrr, p) + [p] else c.rq.wrr
  }

  lemma TickExact(c: Cell, refill: nat, d: nat, r: nat)
    requires CellInv(c, r, None)
    ensures Ticked(c, TickTask(c, refill, d), refill, d)
  {
    hide Without, Counts, Placed;
    if WrrCurrent(c) {
      assert TaskOk(c.tasks[c.rq.curr.value]);
    }
  }

  /** A task of another policy that finds itself in the class is charged and left alone. */
  lemma TickOther(c: Cell, refill: nat)
    requires CurrKnown(c) && c.rq.curr.Some? && c.tasks[c.rq.curr.value].policy != WrrPolicy
    ensures var (e, resched) := TickWrr(c, refill);
            && !resched && e.rq.wrr == c.rq.wrr && |e.tasks| == |c.tasks|
            && forall q :: 0 <= q < |c.tasks| ==> e.tasks[q].slice == c.tasks[q].slice
  {
  }

  /** A WRR task that yields is last, and the others keep their order; nothing else changes. */
  ghost predicate Yielded(c: Cell, e: Cell)
    requires CurrKnown(c)
  {
    && e.tasks == c.tasks
    && e.rq == c.rq.(wrr := e.rq.wrr)
    && e.rq.wrr == if WrrCurrent(c) then Without(c.rq.wrr, c.rq.curr.value) + [c.rq.curr.value] else c.rq.wrr
  }

  lemma YieldExact(c: Cell)
    requires CurrKnown(c)
    ensures Yielded(c, Yield(c))
    ensures WrrCurrent(c) ==> Yield(c).rq.wrr != [] && Yield(c).rq.wrr[|Yield(c).rq.wrr| - 1] == c.rq.curr.value
  {
    hide Without;
  }

  /** A task that wakes up is queued, behind the others if it is a WRR task. */
  lemma ActivateExact(c: Cell, p: nat, d: nat)
    requires CurrKnown(c) && p < |c.tasks|
    ensures var e := Activate(c, p, d);
            && e.tasks == c.tasks[p := c.tasks[p].(onRq := true)]
            && e.rq.curr == c.rq.curr && e.rq.clock == c.rq.clock + d
            && e.rq.wrr == c.rq.wrr + if c.tasks[p].cls.Wrr? then [p] else []
  {
    Queued(c, p, d, false, EnqueueTask(AddClock(c, d), p, false));
    hide EnqueueTask, AddClock;
  }

  /** A task that blocks is queued no more. */
  ghost predicate Slept(c: Cell, e: Cell, d: nat)
    requires CurrKnown(c) && c.rq.curr.Some?
  {
    var p := c.rq.curr.value;
    && |e.tasks| == |c.tasks|
    && (forall q :: 0 <= q < |c.tasks| && q != p ==> e.tasks[q] == c.tasks[q])
    && e.tasks[p] == c.tasks[p].(onRq := false, execStart := e.tasks[p].execStart, sumExec := e.tasks[p].sumExec)
    && e.rq.curr == c.rq.curr && e.rq.clock == c.rq.clock + d
    && e.rq.wrr == if c.tasks[p].cls.Wrr? then Without(c.rq.wrr, p) else c.rq.wrr
  }

  lemma SleepExact(c: Cell, d: nat)
    requires CurrKnown(c) && c.rq.curr.Some?
    ensures Slept(c, Sleep(c, d), d)
  {
    hide Without;
  }

  /** A switch runs the best task of the highest class that offers one, from now on if it is a WRR task, and moves none
      in or out of a queue. */
  ghost predicate Switched(c: Cell, e: Cell, k: Picks, d: nat)
  {
    && IsBest(c.rq, k, e.rq.curr)
    && |e.tasks| == |c.tasks|
    && (forall q :: 0 <= q < |c.tasks| ==>
          && e.tasks[q] == c.tasks[q].(execStart := e.tasks[q].execStart, sumExec := e.tasks[q].sumExec)
          && (c.rq.curr != Some(q) ==> e.tasks[q].sumExec == c.tasks[q].sumExec)
          && (c.rq.curr != Some(q) && e.rq.curr != Some(q) ==> e.tasks[q] == c.tasks[q])
          && (!c.tasks[q].cls.Wrr? ==> e.tasks[q] == c.tasks[q])
          && (c.rq.curr == Some(q) && c.tasks[q].cls.Wrr? && e.rq.curr != Some(q) ==> e.tasks[q].execStart == 0))
    && e.rq == c.rq.(curr := e.rq.curr, clock := c.rq.clock + d, elapsed := e.rq.elapsed, charged := e.rq.charged)
    && (k.stop.None? && k.rt.None? && c.rq.wrr != [] && c.rq.wrr[0] < |c.tasks| ==>
          e.rq.curr == Some(c.rq.wrr[0]) && e.tasks[c.rq.wrr[0]].execStart == e.rq.clock)
  }

  lemma HeadIsWrr(c: Cell, r: nat)
    requires CellInv(c, r, None)
    ensures c.rq.wrr != [] ==> c.rq.wrr[0] < |c.tasks| && c.tasks[c.rq.wrr[0]].cls.Wrr?
  {
    hide Counts, TasksOk;
    if c.rq.wrr != [] {
      assert In(c.rq, Wrr, c.rq.wrr[0]);
    }
  }

  lemma PutExact(c: Cell, p: nat)
    requires c.rq.curr == Some(p) && p < |c.tasks|
    ensures var e := PutPrevTask(c, p);
            if !c.tasks[p].cls.Wrr? then e == c
            else
              && |e.tasks| == |c.tasks| && e.rq == c.rq.(charged := e.rq.charged)
              && (forall q :: 0 <= q < |c.tasks| && q != p ==> e.tasks[q] == c.tasks[q])
              && e.tasks[p] == c.tasks[p].(execStart := 0, sumExec := e.tasks[p].sumExec)
  {
  }

  /** The head starts to be timed if no higher class offers anything. */
  lemma PickExact(c: Cell, k: Picks, e: Cell)
    requires c.rq.wrr != [] ==> c.rq.wrr[0] < |c.tasks|
    requires e == if k.stop.None? && k.rt.None? then PickWrr(c).0 else c
    ensures e.rq == c.rq && |e.tasks| == |c.tasks|
    ensures forall q :: 0 <= q < |c.tasks| && (c.rq.wrr == [] || q != c.rq.wrr[0]) ==> e.tasks[q] == c.tasks[q]
    ensures k.stop.None? && k.rt.None? && c.rq.wrr != [] && c.rq.wrrNr != 0 ==>
      e.tasks[c.rq.wrr[0]] == c.tasks[c.rq.wrr[0]].(execStart := c.rq.clock)
    ensures !(k.stop.None? && k.rt.None?) ==> e == c
  {
  }

  lemma SwitchExact(c: Cell, k: Picks, d: nat, r: nat)
    requires CellInv(c, r, None) && PicksOk(c.rq, k)
    ensures c.rq.wrr != [] ==> c.rq.wrr[0] < |c.tasks|
    ensures Switched(c, Switch(c, k, d), k, d)
  {
    hide Distinct, Placed, AddClock, PutPrevTask, PickWrr, IsBest;
    HeadIsWrr(c, r);
    BestUnique(c.rq, k, Best(c.rq, k));
    AddClockExact(c, d);
    var a := AddClock(c, d);
    var put := if a.rq.curr.Some? then PutPrevTask(a, a.rq.curr.value) else a;
    if a.rq.curr.Some? {
      PutExact(a, a.rq.curr.value);
    }
    assert Best(put.rq, k) == Best(c.rq, k);
    PickExact(put, k, if k.stop.None? && k.rt.None? then PickWrr(put).0 else put);
  }

  // ---- All run queues ----

  /** Every run queue but r, and every task that is not on CPU r, is as it was. */
  ghost predicate OnlyAt(s: State, e: State, r: nat)
  {
    && e.hz == s.hz && |e.rqs| == |s.rqs| && |e.tasks| == |s.tasks|
    && forall i :: 0 <= i < |s.rqs| && i != r ==> e.rqs[i] == s.rqs[i]
  }

  /** A wake-up puts the task on the CPU chosen for it, in the queue of its class there. */
  lemma WakeExact(s: State, p: nat, cpu: nat, d: nat, e: State)
    requires InvOut(s, None) && Enabled(s, Wake(p, cpu, d)) && e == Next(s, Wake(p, cpu, d))
    ensures OnlyAt(s, e, cpu)
    ensures e.tasks == s.tasks[p := s.tasks[p].(onRq := true, cpu := cpu)]
    ensures forall cls :: In(e.rqs[cpu], cls, p) <==> cls == s.tasks[p].cls
    ensures e.rqs[cpu].curr == s.rqs[cpu].curr && e.rqs[cpu].clock == s.rqs[cpu].clock + d
    ensures e.rqs[cpu].wrr == s.rqs[cpu].wrr + if s.tasks[p].cls.Wrr? then [p] else []
  {
    hide Activate, CellInv, Accounted;
    WakeInv(s, p, cpu, d);
    ActivateExact(At(SetCpu(s, p, cpu), cpu), p, d);
    InAsPlaced(e, cpu, p);
  }

  /** Where the invariant puts a task. */
  lemma InAsPlaced(e: State, r: nat, p: nat)
    requires InvOut(e, None) && r < |e.rqs| && p < |e.tasks|
    ensures forall cls :: In(e.rqs[r], cls, p) <==> e.tasks[p].onRq && e.tasks[p].cls == cls && e.tasks[p].cpu == r
  {
    hide Counts, TasksOk, Accounted;
    assert RqOk(e, r, None);
  }

  /** A migration takes a queued task from its CPU to the destination and leaves one that is not queued alone. The
      source's current task is charged on the way if it is a WRR task and so is the one taken. */
  lemma MigrateExact(s: State, p: nat, dest: nat, d1: nat, d2: nat, e: State)
    requires InvOut(s, None) && Enabled(s, Migrate(p, dest, d1, d2)) && e == Next(s, Migrate(p, dest, d1, d2))
    ensures !s.tasks[p].onRq ==> e == s
    ensures s.tasks[p].onRq ==>
      && |e.rqs| == |s.rqs| && |e.tasks| == |s.tasks|
      && (forall i :: 0 <= i < |s.rqs| && i != s.tasks[p].cpu && i != dest ==> e.rqs[i] == s.rqs[i])
      && (forall i :: 0 <= i < |s.rqs| ==> e.rqs[i].curr == s.rqs[i].curr)
      && e.tasks[p] == s.tasks[p].(cpu := dest)
      && (forall q :: 0 <= q < |s.tasks| && q != p ==>
            && e.tasks[q] == s.tasks[q].(execStart := e.tasks[q].execStart, sumExec := e.tasks[q].sumExec)
            && (s.rqs[s.tasks[p].cpu].curr != Some(q) ==> e.tasks[q] == s.tasks[q]))
      && (forall cls :: In(e.rqs[dest], cls, p) <==> cls == s.tasks[p].cls)
      && (s.tasks[p].cpu != dest ==> forall cls :: !In(e.rqs[s.tasks[p].cpu], cls, p))
  {
    hide AddClock, DequeueTask, EnqueueTask, CellInv, Accounted, Without, In;
    if s.tasks[p].onRq {
      var src := s.tasks[p].cpu;
      MigrateInv(s, p, dest, d1, d2);
      TakeOutKeepsKnown(s, p, d1, dest);
      AddClockTasks(At(s, src), d1);
      TakenOut(At(s, src), p, d1, DequeueTask(AddClock(At(s, src), d1), p));
      var m := SetCpu(TakeOut(s, p, d1), p, dest);
      AddClockTasks(At(m, dest), d2);
      Queued(At(m, dest), p, d2, false, EnqueueTask(AddClock(At(m, dest), d2), p, false));
      InAsPlaced(e, dest, p);
      InAsPlaced(e, src, p);
    }
  }

  /** The remaining steps change one run queue, as the step says. */
  lemma LocalExact(s: State, step: Step, r: nat, e: State)
    requires InvOut(s, None) && Enabled(s, step) && e == Next(s, step) && !step.Wake? && !step.Migrate?
    requires r == if step.Alter? then s.tasks[step.p].cpu else step.r
    ensures OnlyAt(s, e, r) && KnownAt(s, r)
    ensures var c, f := At(s, r), At(e, r);
            match step
            case Elapse(_, d) => Elapsed(c, f, d)
            case TickStep(_, d, seen) => Ticked(c, f, WrrRotation.PathRefill(seen, s.hz), d)
            case YieldStep(_) => Yielded(c, f)
            case SleepStep(_, d) => Slept(c, f, d)
            case SwitchStep(_, k, d) => Switched(c, f, k, d)
            case Alter(p, ch, _, _) =>
              if Nothing(c.tasks[p], ch) then f == c else p < |f.tasks| && AsAsked(c.tasks[p], ch, f.tasks[p])
  {
    hide CellInv, Accounted, AddClock, TickTask, Yield, Sleep, Switch, ChangeTask, IsBest, AsAsked, Nothing;
    assert RqOk(s, r, None);
    NextInv(s, step);
    match step
    case Elapse(_, d) => AddClockExact(At(s, r), d);
    case TickStep(_, d, seen) => TickExact(At(s, r), WrrRotation.PathRefill(seen, s.hz), d, r);
    case YieldStep(_) => YieldExact(At(s, r));
    case SleepStep(_, d) => SleepExact(At(s, r), d);
    case SwitchStep(_, k, d) => SwitchExact(At(s, r), k, d, r);
    case Alter(p, ch, d1, d2) => ChangeExact(At(s, r), p, ch, d1, d2, r, At(e, r));
  }
}
