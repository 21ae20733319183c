/**
 A run queue whose fields the WRR hooks and the core's transactions update in place, each method proved against
 the value functions the theorems are about.
 */
module WrrRq {
  import opened Basics
  import opened WrrRotation
  import opened SchedClasses
  import opened SchedCell
  import opened SchedAccounts
  import opened SchedChanges

  class RunQueue {
    var stop: set<nat>
    var rt: set<nat>
    var fair: set<nat>
    var queue: seq<nat>
    var wrrNrRunning: int
    var fairNrRunning: int
    var nrRunning: int
    var curr: Option<nat>
    var clockTask: nat
    var tasks: seq<Task>
    ghost var elapsed: nat
    ghost var charged: nat

    ghost function State(): Cell
      reads this
    {
      Cell(Rq(stop, rt, fair, queue, wrrNrRunning, fairNrRunning, nrRunning, curr, clockTask, elapsed, charged), tasks)
    }

    method UpdateRqClock(d: nat)
      requires CurrKnown(State())
      modifies this
      ensures State() == AddClock(old(State()), d)
    {
      if curr.Some? && tasks[curr.value].cls.Wrr? {
        elapsed := elapsed + d;
      }
      clockTask := clockTask + d;
    }

    method UpdateCurr()
      requires CurrKnown(State())
      modifies this
      ensures State() == UpdateCurrWrr(old(State()))
      ensures old(Accounted(State())) ==> Accounted(State()) && Settled(State())
    {
      if Accounted(State()) {
        UpdateCurrAcct(State());
      }
      if curr.None? {
        return;
      }
      var t := tasks[curr.value];
      if t.cls != Wrr {
        return;
      }
      var delta := clockTask - t.execStart;
      if delta < 0 {
        delta := 0;
      }
      tasks := tasks[curr.value := t.(sumExec := t.sumExec + delta, execStart := clockTask)];
      charged := charged + delta;
    }

    method Enqueue(p: nat, head: bool)
      modifies this
      ensures State() == EnqueueWrr(old(State()), p, head)
      ensures queue == if head then [p] + old(queue) else old(queue) + [p]
      ensures old(Counts(State().rq)) && p !in old(queue) ==>
                Counts(State().rq) && forall x :: x in queue <==> x in old(queue) || x == p
    {
      if Counts(State().rq) && p !in queue {
        EnqueueWrrOk(State(), p, head);
        LinkOk(queue, p, head);
      }
      if head {
        queue := [p] + queue;
      } else {
        queue := queue + [p];
      }
      wrrNrRunning := wrrNrRunning + 1;
      nrRunning := nrRunning + 1;
    }

    method Dequeue(p: nat)
      requires CurrKnown(State())
      modifies this
      ensures State() == DequeueWrr(old(State()), p)
      ensures old(Counts(State().rq)) && p in old(queue) ==>
                Counts(State().rq) && forall x :: x in queue <==> x in old(queue) && x != p
    {
      if Counts(State().rq) {
        WithoutOk(queue, p);
      }
      UpdateCurr();
      queue := Without(queue, p);
      wrrNrRunning := wrrNrRunning - 1;
      nrRunning := nrRunning - 1;
    }

    method Requeue(p: nat, head: bool)
      modifies this
      ensures State() == RequeueWrr(old(State()), p, head)
      ensures old(Counts(State().rq)) && p in old(queue) ==>
                && Counts(State().rq) && (forall x :: x in queue <==> x in old(queue))
                && queue[if head then 0 else |queue| - 1] == p
    {
      if Counts(State().rq) && p in queue {
        RequeueOk(State(), p, head);
        WithoutOk(queue, p);
      }
      queue := Without(queue, p);
      if head {
        queue := [p] + queue;
      } else {
        queue := queue + [p];
      }
    }

    method YieldTask()
      requires CurrKnown(State()) && WrrCurrent(State())
      modifies this
      ensures State() == Yield(old(State()))
      ensures queue != [] && queue[|queue| - 1] == curr.value
    {
      Requeue(curr.value, false);
    }

    /** `pick_next_task_wrr`: the head of the queue, or nothing. */
    method PickNext() returns (p: Option<nat>)
      requires queue != [] ==> queue[0] < |tasks|
      modifies this
      ensures (State(), p) == PickWrr(old(State()))
    {
      if wrrNrRunning == 0 || queue == [] {
        return None;
      }
      var head := queue[0];
      tasks := tasks[head := tasks[head].(execStart := clockTask)];
      p := Some(head);
    }

    method PutPrev(p: nat)
      requires CurrKnown(State()) && p < |tasks|
      modifies this
      ensures State() == PutPrevWrr(old(State()), p)
      ensures old(Accounted(State()) && curr == Some(p) && WrrCurrent(State())) ==> Settled(State())
    {
      UpdateCurr();
      tasks := tasks[p := tasks[p].(execStart := 0)];
    }

    method SetCurr()
      requires CurrKnown(State()) && curr.Some?
      modifies this
      ensures State() == SetCurrWrr(old(State()))
      ensures old(Settled(State())) && tasks[curr.value].cls.Wrr? ==> Accounted(State())
    {
      tasks := tasks[curr.value := tasks[curr.value].(execStart := clockTask)];
    }

    /** `task_tick_wrr`; `seen` is what the two comparisons find in the path buffer, and `queue->prev != queue->next` is
        two queued tasks or more. */
    method TaskTick(hz: nat, seen: Seen) returns (resched: bool)
      requires CurrKnown(State()) && curr.Some?
      modifies this
      ensures (State(), resched) == TickWrr(old(State()), PathRefill(seen, hz))
    {
      var p := curr.value;
      resched := false;
      UpdateCurr();
      ghost var u := tasks;
      if tasks[p].policy != WrrPolicy {
        return;
      }
      var left := Dec(tasks[p].slice);
      tasks := tasks[p := tasks[p].(slice := left)];
      if left != 0 {
        return;
      }
      if seen.fore == FOREGROUP {
        tasks := tasks[p := tasks[p].(slice := ForeSlice(hz))];
      } else if seen.back == BACKGROUP {
        tasks := tasks[p := tasks[p].(slice := BackSlice(hz))];
      }
      assert tasks == u[p := u[p].(slice := PathRefill(seen, hz))];
      if |queue| >= 2 {
        Requeue(p, false);
        resched := true;
      }
    }

    /** The class's `enqueue_task`. */
    method ActivateIn(p: nat, head: bool)
      requires p < |tasks|
      modifies this
      ensures State() == EnqueueTask(old(State()), p, head)
    {
      match tasks[p].cls {
        case Wrr => Enqueue(p, head);
        case Stop => stop, nrRunning := stop + {p}, nrRunning + 1;
        case Rt => rt, nrRunning := rt + {p}, nrRunning + 1;
        case Fair => fair, fairNrRunning, nrRunning := fair + {p}, fairNrRunning + 1, nrRunning + 1;
        case Idle =>
      }
    }

    /** The class's `dequeue_task`. */
    method DeactivateFrom(p: nat)
      requires p < |tasks| && CurrKnown(State())
      modifies this
      ensures State() == DequeueTask(old(State()), p)
    {
      match tasks[p].cls {
        case Wrr => Dequeue(p);
        case Stop => stop, nrRunning := stop - {p}, nrRunning - 1;
        case Rt => rt, nrRunning := rt - {p}, nrRunning - 1;
        case Fair => fair, fairNrRunning, nrRunning := fair - {p}, fairNrRunning - 1, nrRunning - 1;
        case Idle =>
      }
    }

    /** The body shared by `__sched_setscheduler`, `rt_mutex_setprio`, `set_user_nice` and `sched_move_task`; on a
        run queue in order it leaves the run queue in order. */
    method Change(p: nat, ch: SchedCell.Change, d1: nat, d2: nat, ghost r: nat)
      requires p < |tasks| && tasks[p].cpu == r && CellInv(State(), r, None)
      modifies this
      ensures State() == Transaction(old(State()), p, ch, d1, d2)
      ensures CellInv(State(), r, None)
      ensures !(ch.ToNice? && Realtime(old(tasks[p]).policy)) ==> p < |tasks| && AsAsked(old(tasks[p]), ch, tasks[p])
    {
      hide AddClock, DequeueTask, EnqueueTask, PutPrevWrr, SetCurrWrr, Altered, CellInv, Counts, Placed, AsAsked;
      CellKnown(State(), r);
      TransactionInv(State(), p, ch, d1, d2, r);
      TransactedAsAsked(State(), p, ch, d1, d2);
      var onRq, oldPrio := tasks[p].onRq, tasks[p].prio;
      var restart := curr == Some(p) && !ch.ToNice?;
      if onRq {
        AddClockOk(State(), d1, r, None);
        UpdateRqClock(d1);
        CellKnown(State(), r);
        DequeueInv(State(), p, r);
        DeactivateFrom(p);
        CellKnown(State(), r);
      }
      if restart {
        PutPrevKnown(State(), p);
        if tasks[p].cls.Wrr? {
          PutPrev(p);
        }
      }
      FinishChange(p, ch, restart, d2, ch.ToPrio? && oldPrio < ch.prio);
    }

    method FinishChange(p: nat, ch: SchedCell.Change, restart: bool, d2: nat, head: bool)
      requires p < |tasks| && CurrKnown(State()) && (restart ==> curr.Some?)
      modifies this
      ensures State() == Finish(old(State()), p, ch, restart, d2, head)
    {
      hide AddClock, EnqueueTask, SetCurrWrr, Altered;
      var onRq := tasks[p].onRq;
      tasks := tasks[p := Altered(tasks[p], ch)];
      if restart && tasks[curr.value].cls.Wrr? {
        SetCurrKnown(State());
        SetCurr();
      }
      if onRq {
        AddClockTasks(State(), d2);
        UpdateRqClock(d2);
        ActivateIn(p, head);
      }
    }
  }

  lemma TransactedAsAsked(c: Cell, p: nat, ch: SchedCell.Change, d1: nat, d2: nat)
    requires p < |c.tasks| && CurrKnown(c)
    ensures !(ch.ToNice? && Realtime(c.tasks[p].policy)) ==>
      var e := Transaction(c, p, ch, d1, d2); p < |e.tasks| && AsAsked(c.tasks[p], ch, e.tasks[p])
  {
    if !(ch.ToNice? && Realtime(c.tasks[p].policy)) {
      AlteredIs(c.tasks[p], ch);
      hide Altered, Transaction;
      Transacted(c, p, ch, d1, d2, Altered(c.tasks[p], ch), Transaction(c, p, ch, d1, d2));
    }
  }

  lemma CellKnown(c: Cell, r: nat)
    requires exists out :: CellInv(c, r, out)
    ensures CurrKnown(c)
  {
  }

  lemma PutPrevKnown(c: Cell, p: nat)
    requires CurrKnown(c) && p < |c.tasks|
    ensures |PutPrevWrr(c, p).tasks| == |c.tasks| && PutPrevWrr(c, p).rq.curr == c.rq.curr
  {
  }

  lemma SetCurrKnown(c: Cell)
    requires CurrKnown(c) && c.rq.curr.Some?
    ensures |SetCurrWrr(c).tasks| == |c.tasks| && SetCurrWrr(c).rq.curr == c.rq.curr
  {
  }

  lemma AddClockTasks(c: Cell, d: nat)
    requires CurrKnown(c)
    ensures AddClock(c, d).tasks == c.tasks
  {
  }
}
