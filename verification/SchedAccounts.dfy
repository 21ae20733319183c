/**
 WRR execution time on one run queue: every operation keeps "charged plus not yet charged equals elapsed", although
 `put_prev_task` zeroes the running task's start time, and what is charged is exactly what the tasks gain.
 */
module SchedAccounts {
  import opened Basics
  import opened WrrRotation
  import opened SchedClasses
  import opened SchedCell

  /** Total execution time of all tasks. */
  function SumExec(tasks: seq<Task>): nat
  {
    if tasks == [] then 0 else tasks[0].sumExec + SumExec(tasks[1..])
  }

  lemma {:induction false} SumSet(tasks: seq<Task>, p: nat, t: Task)
    requires p < |tasks|
    ensures SumExec(tasks[p := t]) == SumExec(tasks) - tasks[p].sumExec + t.sumExec
  {
    if p == 0 {
      assert tasks[p := t][1..] == tasks[1..];
    } else {
      assert tasks[p := t][1..] == tasks[1..][p - 1 := t];
      SumSet(tasks[1..], p - 1, t);
    }
  }

  /** What the tasks gain between `a` and `b` is what the run queue charged. */
  predicate Charges(a: Cell, b: Cell)
  {
    SumExec(b.tasks) - SumExec(a.tasks) == b.rq.charged - a.rq.charged
  }

  /** Only times differ, the current task and the clock are the same. */
  predicate SameView(a: Cell, b: Cell)
  {
    && |b.tasks| == |a.tasks|
    && b.rq.curr == a.rq.curr
    && b.rq.clock == a.rq.clock
    && b.rq.elapsed == a.rq.elapsed
    && forall p :: 0 <= p < |a.tasks| ==> b.tasks[p].cls == a.tasks[p].cls
  }

  lemma AddClockAcct(c: Cell, d: nat)
    requires Accounted(c)
    ensures Accounted(AddClock(c, d)) && Charges(c, AddClock(c, d))
    ensures AddClock(c, d).tasks == c.tasks && AddClock(c, d).rq.curr == c.rq.curr
  {
  }

  lemma UpdateCurrAcct(c: Cell)
    requires Accounted(c)
    ensures var e := UpdateCurrWrr(c); Accounted(e) && Settled(e) && Charges(c, e) && SameView(c, e)
  {
    if WrrCurrent(c) {
      var p := c.rq.curr.value;
      SumSet(c.tasks, p, UpdateCurrWrr(c).tasks[p]);
    }
  }

  lemma DequeueAcct(c: Cell, p: nat)
    requires p < |c.tasks| && Accounted(c)
    ensures var e := DequeueTask(c, p); Accounted(e) && Charges(c, e) && SameView(c, e)
  {
    hide UpdateCurrWrr, Without;
    UpdateCurrAcct(c);
  }

  lemma EnqueueAcct(c: Cell, p: nat, head: bool)
    requires p < |c.tasks| && Accounted(c)
    ensures var e := EnqueueTask(c, p, head); Accounted(e) && Charges(c, e) && SameView(c, e)
  {
    hide Link, SumExec;
  }

  lemma PutPrevAcct(c: Cell, p: nat)
    requires Accounted(c) && c.rq.curr == Some(p)
    ensures var e := PutPrevTask(c, p); Settled(e) && Charges(c, e) && SameView(c, e)
  {
    hide UpdateCurrWrr;
    UpdateCurrAcct(c);
    var u := UpdateCurrWrr(c);
    SumSet(u.tasks, p, u.tasks[p].(execStart := 0));
  }

  lemma SetCurrAcct(c: Cell)
    requires CurrKnown(c) && c.rq.curr.Some? && Settled(c)
    ensures var e := SetCurrTask(c); Accounted(e) && Charges(c, e) && SameView(c, e)
  {
    var p := c.rq.curr.value;
    SumSet(c.tasks, p, c.tasks[p].(execStart := c.rq.clock));
  }

  /** A change that leaves the times alone, and the class too if the task is current. */
  lemma SetTaskAcct(c: Cell, p: nat, t: Task)
    requires p < |c.tasks| && CurrKnown(c)
    requires t.execStart == c.tasks[p].execStart && t.sumExec == c.tasks[p].sumExec
    ensures var e := SetTask(c, p, t);
            && Charges(c, e) && CurrKnown(e) && (Settled(c) ==> Settled(e))
            && (Accounted(c) && (c.rq.curr != Some(p) || t.cls == c.tasks[p].cls) ==> Accounted(e))
  {
    SumSet(c.tasks, p, t);
  }

  lemma AlteredTimes(t: Task, ch: Change)
    ensures Altered(t, ch).execStart == t.execStart && Altered(t, ch).sumExec == t.sumExec
    ensures ch.ToNice? ==> Altered(t, ch).cls == t.cls
  {
  }

  lemma FinishAcct(c: Cell, p: nat, ch: Change, restart: bool, d2: nat, head: bool)
    requires p < |c.tasks| && CurrKnown(c)
    requires restart <==> c.rq.curr == Some(p) && !ch.ToNice?
    requires if restart then Settled(c) else Accounted(c)
    ensures var e := Finish(c, p, ch, restart, d2, head); Accounted(e) && Charges(c, e)
  {
    hide AddClock, EnqueueTask, SetCurrTask, Altered, Accounted, SumExec;
    var t := c.tasks[p];
    AlteredTimes(t, ch);
    var changed := SetTask(c, p, Altered(t, ch));
    SetTaskAcct(c, p, Altered(t, ch));
    var reset := if restart then SetCurrTask(changed) else changed;
    if restart {
      SetCurrAcct(changed);
    }
    AccountedKnown(reset);
    AddClockAcct(reset, d2);
    EnqueueAcct(AddClock(reset, d2), p, head);
  }

  lemma AccountedKnown(c: Cell)
    requires Accounted(c)
    ensures CurrKnown(c)
  {
  }

  lemma TransactionAcct(c: Cell, p: nat, ch: Change, d1: nat, d2: nat)
    requires p < |c.tasks| && Accounted(c)
    ensures CurrKnown(c)
    ensures var e := Transaction(c, p, ch, d1, d2); Accounted(e) && Charges(c, e)
  {
    hide AddClock, DequeueTask, PutPrevTask, Finish, Accounted, SumExec;
    AccountedKnown(c);
    var t := c.tasks[p];
    var restart := c.rq.curr == Some(p) && !ch.ToNice?;
    AddClockAcct(c, d1);
    AccountedKnown(AddClock(c, d1));
    DequeueAcct(AddClock(c, d1), p);
    var out := if t.onRq then DequeueTask(AddClock(c, d1), p) else c;
    AccountedKnown(out);
    assert out.rq.curr == c.rq.curr && |out.tasks| == |c.tasks|;
    var put := if restart then PutPrevTask(out, p) else out;
    if restart {
      PutPrevAcct(out, p);
    }
    FinishAcct(put, p, ch, restart, d2, ch.ToPrio? && t.prio < ch.prio);
  }

  lemma ChangeTaskAcct(c: Cell, p: nat, ch: Change, d1: nat, d2: nat)
    requires p < |c.tasks| && Accounted(c)
    ensures var e := ChangeTask(c, p, ch, d1, d2); Accounted(e) && Charges(c, e)
  {
    hide Transaction, SumExec;
    TransactionAcct(c, p, ch, d1, d2);
    if ch.ToNice? {
      SetTaskAcct(c, p, c.tasks[p].(staticPrio := ch.staticPrio));
    }
  }

  lemma ActivateAcct(c: Cell, p: nat, d: nat)
    requires p < |c.tasks| && Accounted(c)
    ensures var e := Activate(c, p, d); Accounted(e) && Charges(c, e)
  {
    hide AddClock, EnqueueTask, SumExec, Accounted;
    AccountedKnown(c);
    AddClockAcct(c, d);
    EnqueueAcct(AddClock(c, d), p, false);
    var e := EnqueueTask(AddClock(c, d), p, false);
    AccountedKnown(e);
    SetTaskAcct(e, p, e.tasks[p].(onRq := true));
  }

  lemma SleepAcct(c: Cell, d: nat)
    requires Accounted(c) && c.rq.curr.Some?
    ensures var e := Sleep(c, d); Accounted(e) && Charges(c, e)
  {
    hide AddClock, DequeueTask, SumExec, Accounted;
    AccountedKnown(c);
    var p := c.rq.curr.value;
    AddClockAcct(c, d);
    DequeueAcct(AddClock(c, d), p);
    var e := DequeueTask(AddClock(c, d), p);
    AccountedKnown(e);
    SetTaskAcct(e, p, e.tasks[p].(onRq := false));
  }

  lemma TickAcct(c: Cell, refill: nat, d: nat)
    requires Accounted(c)
    ensures var e := TickTask(c, refill, d); Accounted(e) && Charges(c, e)
  {
    hide AddClock, UpdateCurrWrr, SumExec, Dec, Without;
    AddClockAcct(c, d);
    var a := AddClock(c, d);
    if WrrCurrent(a) {
      var p := a.rq.curr.value;
      UpdateCurrAcct(a);
      var u := UpdateCurrWrr(a);
      var t := u.tasks[p];
      SetTaskAcct(u, p, t.(slice := Dec(t.slice)));
      SetTaskAcct(u, p, t.(slice := refill));
    }
  }

  lemma YieldAcct(c: Cell)
    requires Accounted(c)
    ensures Accounted(Yield(c)) && Charges(c, Yield(c))
  {
  }

  /** Switching settles the outgoing task's account and starts timing a WRR successor from now. */
  lemma SwitchAcct(c: Cell, k: Picks, d: nat, r: nat)
    requires CellInv(c, r, None) && PicksOk(c.rq, k) && Accounted(c)
    ensures c.rq.wrr != [] ==> c.rq.wrr[0] < |c.tasks|
    ensures var e := Switch(c, k, d); Accounted(e) && Charges(c, e)
  {
    hide AddClock, PutPrevTask, SumExec, Counts;
    WrrQueued(c, r);
    AddClockAcct(c, d);
    AddClockOk(c, d, r, None);
    AddClockKeeps(c, d);
    var a := AddClock(c, d);
    var put := if a.rq.curr.Some? then PutPrevTask(a, a.rq.curr.value) else a;
    if a.rq.curr.Some? {
      PutPrevAcct(a, a.rq.curr.value);
      PutPrevInv(a, a.rq.curr.value, r, None);
    }
    PickAcct(put, k, r);
  }

  lemma PickAcct(c: Cell, k: Picks, r: nat)
    requires CellInv(c, r, None) && PicksOk(c.rq, k) && Settled(c)
    ensures c.rq.wrr != [] ==> c.rq.wrr[0] < |c.tasks|
    ensures var picked := if k.stop.None? && k.rt.None? then PickWrr(c).0 else c;
            var e := picked.(rq := picked.rq.(curr := Best(c.rq, k)));
            Accounted(e) && Charges(c, e)
  {
    hide SumExec;
    WrrQueued(c, r);
    var next := Best(c.rq, k);
    if next.Some? {
      assert In(c.rq, Stop, next.value) || In(c.rq, Rt, next.value) || In(c.rq, Wrr, next.value)
          || In(c.rq, Fair, next.value);
    }
    if c.rq.wrr != [] {
      var p := c.rq.wrr[0];
      assert In(c.rq, Wrr, p);
      SumSet(c.tasks, p, c.tasks[p].(execStart := c.rq.clock));
    }
  }
}
