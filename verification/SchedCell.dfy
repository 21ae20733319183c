/**
 The scheduler's operations on one run queue, built from the class hooks: wake, sleep, switch, tick, yield, and the
 dequeue-change-enqueue transaction shared by policy changes, priority inheritance, renicing and group moves.
 Each keeps queue membership, the counters and the WRR execution-time accounts in order.
 */
module SchedCell {
  import opened Basics
  import opened WrrRotation
  import opened SchedClasses

  predicate RtPolicy(policy: Policy)
  {
    policy == Fifo || policy == RoundRobin
  }

  function NormalPrio(t: Task): int
  {
    if RtPolicy(t.policy) then MAX_RT_PRIO - 1 - t.rtPriority else t.staticPrio
  }

  /** `top` is the priority of the task's top rt-mutex waiter. */
  datatype Change =
    | ToPolicy(policy: Policy, rtPriority: nat, top: int)
    | ToPrio(prio: int)
    | ToNice(staticPrio: nat)
    | ToGroup(group: string)

  function PrioClass(prio: int): Class
  {
    if prio < MAX_RT_PRIO then Rt else Fair
  }

  /** `__setscheduler`, the class choice of `rt_mutex_setprio`, `effective_prio`, and the group pointer. */
  function Altered(t: Task, ch: Change): Task
  {
    match ch
    case ToPolicy(policy, rtPriority, top) =>
      var u := t.(policy := policy, rtPriority := rtPriority);
      var prio := if top < NormalPrio(u) then top else NormalPrio(u);
      u.(prio := prio, cls := if policy == WrrPolicy then Wrr else PrioClass(prio))
    case ToPrio(prio) => t.(prio := prio, cls := PrioClass(prio))
    case ToNice(staticPrio) =>
      var u := t.(staticPrio := staticPrio);
      u.(prio := if t.prio < MAX_RT_PRIO then t.prio else NormalPrio(u))
    case ToGroup(group) => t.(group := group)
  }

  /** The parameter test of `__sched_setscheduler`, as written: an RT policy with priority zero passes. */
  predicate Acceptable(policy: Policy, rtPriority: nat)
  {
    && rtPriority <= MAX_RT_PRIO - 1
    && !(RtPolicy(policy) != (rtPriority != 0) && (policy == WrrPolicy) != (rtPriority != 0))
  }

  /** The rule its comment states: 1 to 99 for the RT policies and 0 for NORMAL, BATCH and IDLE. The comment does not
      name the WRR policy, which is taken with the others here. */
  predicate Documented(policy: Policy, rtPriority: nat)
  {
    if RtPolicy(policy) then 1 <= rtPriority <= MAX_RT_PRIO - 1 else rtPriority == 0
  }

  /** What the test accepts. */
  lemma AcceptableIs(policy: Policy, rtPriority: nat)
    ensures Acceptable(policy, rtPriority) <==>
              rtPriority <= MAX_RT_PRIO - 1 && (rtPriority == 0 || RtPolicy(policy) || policy == WrrPolicy)
  {
  }

  /** The test follows the stated rule except exactly for an RT policy with priority zero and the WRR policy with a
      priority, both of which it lets through. */
  lemma AcceptableIffDocumented(policy: Policy, rtPriority: nat)
    ensures (Acceptable(policy, rtPriority) <==> Documented(policy, rtPriority)) <==>
              !(RtPolicy(policy) && rtPriority == 0)
              && !(policy == WrrPolicy && 1 <= rtPriority <= MAX_RT_PRIO - 1)
  {
    AcceptableIs(policy, rtPriority);
  }

  /** SCHED_FIFO with priority zero is accepted and lands in the RT class at the lowest RT priority; SCHED_WRR with
      priority 50 is accepted and lands in the WRR class. */
  lemma UndocumentedAccepted(t: Task, top: int)
    requires top >= MAX_RT_PRIO - 1 && !t.cls.Stop? && t.policy == Normal
    ensures !Documented(Fifo, 0) && !Refused(t, ToPolicy(Fifo, 0, top))
    ensures Altered(t, ToPolicy(Fifo, 0, top)).cls == Rt && Altered(t, ToPolicy(Fifo, 0, top)).prio == MAX_RT_PRIO - 1
    ensures !Documented(WrrPolicy, 50) && !Refused(t, ToPolicy(WrrPolicy, 50, top))
    ensures Altered(t, ToPolicy(WrrPolicy, 50, top)).cls == Wrr
  {
    AcceptableIs(Fifo, 0);
    AcceptableIs(WrrPolicy, 50);
  }

  /** Whether the operation returns early, changing nothing. */
  predicate Refused(t: Task, ch: Change)
  {
    match ch
    case ToPolicy(policy, rtPriority, _) =>
      || !Acceptable(policy, rtPriority)
      || t.cls.Stop?
      || (policy == t.policy && (!RtPolicy(policy) || rtPriority == t.rtPriority))
    case ToNice(staticPrio) => staticPrio == t.staticPrio
    case _ => false
  }

  function SetTask(c: Cell, p: nat, t: Task): Cell
    requires p < |c.tasks|
  {
    c.(tasks := c.tasks[p := t])
  }

  /** The second half: change, set current, enqueue. */
  function Finish(c: Cell, p: nat, ch: Change, restart: bool, d2: nat, head: bool): Cell
    requires p < |c.tasks| && CurrKnown(c) && (restart ==> c.rq.curr.Some?)
  {
    var changed := SetTask(c, p, Altered(c.tasks[p], ch));
    var reset := if restart then SetCurrTask(changed) else changed;
    if c.tasks[p].onRq then EnqueueTask(AddClock(reset, d2), p, head) else reset
  }

  /** Dequeue if queued, put if running, change, set current again, enqueue. Renicing does not put. */
  function Transaction(c: Cell, p: nat, ch: Change, d1: nat, d2: nat): Cell
    requires p < |c.tasks| && CurrKnown(c)
  {
    var t := c.tasks[p];
    var restart := c.rq.curr == Some(p) && !ch.ToNice?;
    var out := if t.onRq then DequeueTask(AddClock(c, d1), p) else c;
    var put := if restart then PutPrevTask(out, p) else out;
    Finish(put, p, ch, restart, d2, ch.ToPrio? && t.prio < ch.prio)
  }

  /** `set_user_nice` on a task with an RT policy only records the value. */
  function ChangeTask(c: Cell, p: nat, ch: Change, d1: nat, d2: nat): Cell
    requires p < |c.tasks| && CurrKnown(c)
  {
    var t := c.tasks[p];
    if Refused(t, ch) then c
    else if ch.ToNice? && RtPolicy(t.policy) then SetTask(c, p, t.(staticPrio := ch.staticPrio))
    else Transaction(c, p, ch, d1, d2)
  }

  /** The end of a wake-up: `activate_task` and `on_rq = 1`. */
  function Activate(c: Cell, p: nat, d: nat): Cell
    requires p < |c.tasks| && CurrKnown(c)
  {
    var e := EnqueueTask(AddClock(c, d), p, false);
    SetTask(e, p, e.tasks[p].(onRq := true))
  }

  /** The part of `__schedule` that takes a blocking task off the queue. */
  function Sleep(c: Cell, d: nat): Cell
    requires CurrKnown(c) && c.rq.curr.Some?
  {
    var p := c.rq.curr.value;
    var e := DequeueTask(AddClock(c, d), p);
    SetTask(e, p, e.tasks[p].(onRq := false))
  }

  /** The part of `__schedule` from `put_prev_task` to the new current task. */
  function Switch(c: Cell, k: Picks, d: nat): Cell
    requires CurrKnown(c) && (c.rq.wrr != [] ==> c.rq.wrr[0] < |c.tasks|)
  {
    var a := AddClock(c, d);
    var put := if a.rq.curr.Some? then PutPrevTask(a, a.rq.curr.value) else a;
    var next := Best(put.rq, k);
    var picked := if k.stop.None? && k.rt.None? then PickWrr(put).0 else put;
    picked.(rq := picked.rq.(curr := next))
  }

  function TickTask(c: Cell, refill: nat, d: nat): Cell
    requires CurrKnown(c)
  {
    var a := AddClock(c, d);
    if WrrCurrent(a) then TickWrr(a, refill).0 else a
  }

  /** `yield_task_wrr`; the other classes' yields move nothing between queues. */
  function Yield(c: Cell): Cell
    requires CurrKnown(c)
  {
    if WrrCurrent(c) then RequeueWrr(c, c.rq.curr.value, false) else c
  }

  // ---- What holds of a run queue ----

  /** The queues of run queue `r` hold exactly the tasks that are on it, each in its class's queue, except `out`. */
  ghost predicate Placed(rq: Rq, tasks: seq<Task>, r: nat, out: Option<nat>)
  {
    forall cls, p: nat ::
      In(rq, cls, p) <==>
      && p < |tasks| && Some(p) != out
      && tasks[p].onRq && tasks[p].cls == cls && tasks[p].cpu == r
  }

  predicate CurrHere(c: Cell, r: nat)
  {
    c.rq.curr.Some? ==> c.rq.curr.value < |c.tasks| && c.tasks[c.rq.curr.value].cpu == r
  }

  /** A WRR-class task has the WRR policy, and only idle tasks are in the idle class. */
  predicate TaskOk(t: Task)
  {
    !t.cls.Idle? && (t.cls.Wrr? ==> t.policy == WrrPolicy)
  }

  predicate TasksOk(tasks: seq<Task>)
  {
    forall p :: 0 <= p < |tasks| ==> TaskOk(tasks[p])
  }

  /** All WRR time has been charged, up to what the current task has run since it was last looked at. */
  predicate Accounted(c: Cell)
  {
    && CurrKnown(c)
    && if WrrCurrent(c)
       then
         && c.tasks[c.rq.curr.value].execStart <= c.rq.clock
         && c.rq.charged + c.rq.clock - c.tasks[c.rq.curr.value].execStart == c.rq.elapsed
       else c.rq.charged == c.rq.elapsed
  }

  predicate Settled(c: Cell)
  {
    c.rq.charged == c.rq.elapsed
  }

  ghost predicate CellInv(c: Cell, r: nat, out: Option<nat>)
  {
    && Counts(c.rq)
    && Placed(c.rq, c.tasks, r, out)
    && CurrHere(c, r)
    && TasksOk(c.tasks)
  }

  /** Tasks differ at most in their times and slices, and only on CPU `r`. */
  predicate TimesOnly(a: seq<Task>, b: seq<Task>, r: nat)
  {
    && |a| == |b|
    && forall p :: 0 <= p < |a| ==>
         && b[p] == a[p].(execStart := b[p].execStart, sumExec := b[p].sumExec, slice := b[p].slice)
         && (a[p].cpu != r ==> b[p] == a[p])
  }

  lemma TimesOnlyTrans(a: seq<Task>, b: seq<Task>, c: seq<Task>, r: nat)
    requires TimesOnly(a, b, r) && TimesOnly(b, c, r)
    ensures TimesOnly(a, c, r)
  {
  }

  lemma PlacedFrame(rq: Rq, a: seq<Task>, b: seq<Task>, r: nat, out: Option<nat>)
    requires Placed(rq, a, r, out) && TimesOnly(a, b, r) && TasksOk(a)
    ensures Placed(rq, b, r, out) && TasksOk(b)
  {
    forall p | 0 <= p < |b| ensures TaskOk(b[p]) {
      assert TaskOk(a[p]);
    }
  }

  lemma UpdateCurrFrame(c: Cell, r: nat)
    requires CurrHere(c, r)
    ensures TimesOnly(c.tasks, UpdateCurrWrr(c).tasks, r)
  {
  }

  // ---- Queue membership ----

  lemma AddClockOk(c: Cell, d: nat, r: nat, out: Option<nat>)
    requires CellInv(c, r, out)
    ensures CellInv(AddClock(c, d), r, out) && AddClock(c, d).tasks == c.tasks && AddClock(c, d).rq.curr == c.rq.curr
  {
    var e := AddClock(c, d);
    assert forall cls, p :: In(e.rq, cls, p) <==> In(c.rq, cls, p);
  }

  lemma DequeueInv(c: Cell, p: nat, r: nat)
    requires CellInv(c, r, None) && p < |c.tasks| && c.tasks[p].onRq && c.tasks[p].cpu == r
    ensures var e := DequeueTask(c, p);
            CellInv(e, r, Some(p)) && TimesOnly(c.tasks, e.tasks, r) && e.rq.curr == c.rq.curr
  {
    hide Counts;
    var e := DequeueTask(c, p);
    assert In(c.rq, c.tasks[p].cls, p);
    DequeueOk(c, p);
    UpdateCurrFrame(c, r);
    assert TimesOnly(c.tasks, e.tasks, r);
    assert Placed(e.rq, c.tasks, r, Some(p));
    PlacedFrame(e.rq, c.tasks, e.tasks, r, Some(p));
  }

  lemma EnqueueInv(c: Cell, p: nat, head: bool, r: nat)
    requires CellInv(c, r, Some(p)) && p < |c.tasks| && c.tasks[p].onRq && c.tasks[p].cpu == r
    ensures var e := EnqueueTask(c, p, head);
            CellInv(e, r, None) && e.tasks == c.tasks && e.rq.curr == c.rq.curr
  {
    hide Counts;
    assert TaskOk(c.tasks[p]);
    assert !In(c.rq, c.tasks[p].cls, p);
    EnqueueOk(c, p, head);
  }

  /** A task that is in no queue can be changed in any way that leaves it on its CPU. */
  lemma ChangeInv(c: Cell, p: nat, t: Task, r: nat)
    requires CellInv(c, r, Some(p)) && p < |c.tasks| && TaskOk(t) && t.cpu == c.tasks[p].cpu
    ensures CellInv(SetTask(c, p, t), r, Some(p))
  {
    hide Counts;
  }

  /** Whether an absent task counts as taken out or not is the same. */
  lemma AbsentInv(c: Cell, p: nat, r: nat)
    requires p < |c.tasks| && !c.tasks[p].onRq
    ensures CellInv(c, r, None) <==> CellInv(c, r, Some(p))
  {
    hide Counts;
  }

  lemma PutPrevInv(c: Cell, p: nat, r: nat, out: Option<nat>)
    requires CellInv(c, r, out) && c.rq.curr == Some(p)
    ensures var e := PutPrevTask(c, p);
            CellInv(e, r, out) && TimesOnly(c.tasks, e.tasks, r) && e.rq == c.rq.(charged := e.rq.charged)
  {
    hide Counts;
    var e := PutPrevTask(c, p);
    UpdateCurrFrame(c, r);
    assert TimesOnly(c.tasks, e.tasks, r);
    SameQueues(c.rq, e.rq, c.tasks, r, out);
    PlacedFrame(e.rq, c.tasks, e.tasks, r, out);
  }

  lemma SetCurrInv(c: Cell, r: nat, out: Option<nat>)
    requires CellInv(c, r, out) && c.rq.curr.Some?
    ensures var e := SetCurrTask(c);
            CellInv(e, r, out) && TimesOnly(c.tasks, e.tasks, r) && e.rq == c.rq
  {
    hide Counts;
    var e := SetCurrTask(c);
    PlacedFrame(e.rq, c.tasks, e.tasks, r, out);
  }

  /** Membership and counters do not depend on the clock, the accounts or the current task. */
  lemma SameQueues(a: Rq, b: Rq, tasks: seq<Task>, r: nat, out: Option<nat>)
    requires Counts(a) && Placed(a, tasks, r, out)
    requires b == a.(curr := b.curr, clock := b.clock, elapsed := b.elapsed, charged := b.charged)
    ensures Counts(b) && Placed(b, tasks, r, out)
  {
    assert forall cls, p: nat :: In(b, cls, p) <==> In(a, cls, p);
  }

  lemma AlteredOk(t: Task, ch: Change)
    requires TaskOk(t)
    ensures TaskOk(Altered(t, ch))
    ensures Altered(t, ch).cpu == t.cpu && Altered(t, ch).onRq == t.onRq
  {
  }

  /** Nothing about the tasks of other CPUs changes, and no task changes CPU. */
  predicate StaysHere(a: seq<Task>, b: seq<Task>, r: nat)
  {
    && |a| == |b|
    && forall p :: 0 <= p < |a| ==> b[p].cpu == a[p].cpu && (a[p].cpu != r ==> b[p] == a[p])
  }

  /** A change of policy, priority, nice value or group leaves the task in exactly the queue it then belongs to. */
  lemma TransactionInv(c: Cell, p: nat, ch: Change, d1: nat, d2: nat, r: nat)
    requires CellInv(c, r, None) && p < |c.tasks| && c.tasks[p].cpu == r
    ensures CellInv(Transaction(c, p, ch, d1, d2), r, None)
    ensures StaysHere(c.tasks, Transaction(c, p, ch, d1, d2).tasks, r)
    ensures Transaction(c, p, ch, d1, d2).rq.curr == c.rq.curr
  {
    hide AddClock, DequeueTask, EnqueueTask, PutPrevTask, SetCurrTask, Altered, Placed, Counts, TasksOk;
    var t := c.tasks[p];
    var restart := c.rq.curr == Some(p) && !ch.ToNice?;
    AddClockOk(c, d1, r, None);
    var out := if t.onRq then DequeueTask(AddClock(c, d1), p) else c;
    if t.onRq {
      DequeueInv(AddClock(c, d1), p, r);
    } else {
      AbsentInv(c, p, r);
    }
    assert CellInv(out, r, Some(p)) && TimesOnly(c.tasks, out.tasks, r) && out.rq.curr == c.rq.curr;
    var put := if restart then PutPrevTask(out, p) else out;
    if restart {
      PutPrevInv(out, p, r, Some(p));
    }
    TimesOnlyTrans(c.tasks, out.tasks, put.tasks, r);
    AfterPut(put, p, ch, restart, d2, ch.ToPrio? && t.prio < ch.prio, r);
  }

  lemma AfterPut(c: Cell, p: nat, ch: Change, restart: bool, d2: nat, head: bool, r: nat)
    requires CellInv(c, r, Some(p)) && p < |c.tasks| && c.tasks[p].cpu == r && (restart ==> c.rq.curr == Some(p))
    ensures var e := Finish(c, p, ch, restart, d2, head);
            CellInv(e, r, None) && StaysHere(c.tasks, e.tasks, r) && e.rq.curr == c.rq.curr
  {
    hide AddClock, EnqueueTask, SetCurrTask, Altered, Placed, Counts;
    var t := c.tasks[p];
    assert TaskOk(t);
    AlteredOk(t, ch);
    var changed := SetTask(c, p, Altered(t, ch));
    ChangeInv(c, p, Altered(t, ch), r);
    var reset := if restart then SetCurrTask(changed) else changed;
    if restart {
      SetCurrInv(changed, r, Some(p));
    }
    assert StaysHere(c.tasks, reset.tasks, r);
    if t.onRq {
      AddClockOk(reset, d2, r, Some(p));
      EnqueueInv(AddClock(reset, d2), p, head, r);
    } else {
      AbsentInv(reset, p, r);
    }
  }

  lemma ChangeTaskInv(c: Cell, p: nat, ch: Change, d1: nat, d2: nat, r: nat)
    requires CellInv(c, r, None) && p < |c.tasks| && c.tasks[p].cpu == r
    ensures var e := ChangeTask(c, p, ch, d1, d2);
            CellInv(e, r, None) && StaysHere(c.tasks, e.tasks, r) && e.rq.curr == c.rq.curr
  {
    hide Transaction, Counts, Refused;
    TransactionInv(c, p, ch, d1, d2, r);
    assert TaskOk(c.tasks[p]);
  }

  lemma ActivateInv(c: Cell, p: nat, d: nat, r: nat)
    requires CellInv(c, r, None) && p < |c.tasks| && !c.tasks[p].onRq && c.tasks[p].cpu == r
    ensures var e := Activate(c, p, d);
            CellInv(e, r, None) && StaysHere(c.tasks, e.tasks, r) && e.rq.curr == c.rq.curr
  {
    hide AddClock, EnqueueTask, Counts, Placed;
    AbsentInv(c, p, r);
    AddClockOk(c, d, r, Some(p));
    var a := AddClock(c, d);
    var on := a.tasks[p].(onRq := true);
    assert TaskOk(a.tasks[p]);
    ChangeInv(a, p, on, r);
    var b := SetTask(a, p, on);
    EnqueueInv(b, p, false, r);
    EnqueueSetCommute(a, p, on);
  }

  /** Setting `on_rq` before or after the enqueue comes to the same. */
  lemma EnqueueSetCommute(c: Cell, p: nat, t: Task)
    requires p < |c.tasks| && t.cls == c.tasks[p].cls
    ensures EnqueueTask(c, p, false).tasks == c.tasks
    ensures EnqueueTask(SetTask(c, p, t), p, false) == SetTask(EnqueueTask(c, p, false), p, t)
  {
  }

  lemma SleepInv(c: Cell, d: nat, r: nat)
    requires CellInv(c, r, None) && c.rq.curr.Some? && c.tasks[c.rq.curr.value].onRq
    ensures var e := Sleep(c, d);
            CellInv(e, r, None) && StaysHere(c.tasks, e.tasks, r) && e.rq.curr == c.rq.curr
  {
    hide AddClock, DequeueTask, Counts, Placed;
    var p := c.rq.curr.value;
    AddClockOk(c, d, r, None);
    DequeueInv(AddClock(c, d), p, r);
    var e := DequeueTask(AddClock(c, d), p);
    assert TaskOk(e.tasks[p]);
    ChangeInv(e, p, e.tasks[p].(onRq := false), r);
    AbsentInv(Sleep(c, d), p, r);
  }

  lemma YieldInv(c: Cell, r: nat)
    requires CellInv(c, r, None) && (c.rq.curr.Some? ==> c.tasks[c.rq.curr.value].onRq)
    ensures CellInv(Yield(c), r, None) && Yield(c).tasks == c.tasks && Yield(c).rq.curr == c.rq.curr
  {
    hide Counts;
    if WrrCurrent(c) {
      var p := c.rq.curr.value;
      assert In(c.rq, Wrr, p);
      RequeueOk(c, p, false);
    }
  }

  lemma TickInv(c: Cell, refill: nat, d: nat, r: nat)
    requires CellInv(c, r, None) && (c.rq.curr.Some? ==> c.tasks[c.rq.curr.value].onRq)
    ensures var e := TickTask(c, refill, d);
            CellInv(e, r, None) && StaysHere(c.tasks, e.tasks, r) && e.rq.curr == c.rq.curr
  {
    hide AddClock, Counts, Dec, RequeueWrr, Placed;
    AddClockOk(c, d, r, None);
    var a := AddClock(c, d);
    if WrrCurrent(a) {
      var p := a.rq.curr.value;
      var u := UpdateCurrWrr(a);
      UpdateCurrFrame(a, r);
      var left := Dec(u.tasks[p].slice);
      var f := SetTask(u, p, u.tasks[p].(slice := if left != 0 then left else refill));
      assert TimesOnly(a.tasks, f.tasks, r);
      SameQueues(a.rq, f.rq, a.tasks, r, None);
      PlacedFrame(f.rq, a.tasks, f.tasks, r, None);
      assert CellInv(f, r, None) && CellInv(u, r, None) by {
        PlacedFrame(f.rq, a.tasks, u.tasks, r, None);
      }
      RequeueInv(f, p, r);
    }
  }

  lemma RequeueInv(c: Cell, p: nat, r: nat)
    requires CellInv(c, r, None) && p < |c.tasks| && c.tasks[p].onRq && c.tasks[p].cls.Wrr? && c.tasks[p].cpu == r
    ensures CellInv(RequeueWrr(c, p, false), r, None)
    ensures RequeueWrr(c, p, false).tasks == c.tasks && RequeueWrr(c, p, false).rq.curr == c.rq.curr
  {
    hide Counts;
    assert In(c.rq, Wrr, p);
    RequeueOk(c, p, false);
  }

  /** The new current task is queued here, so it is a task of this CPU. */
  lemma SwitchInv(c: Cell, k: Picks, d: nat, r: nat)
    requires CellInv(c, r, None) && PicksOk(c.rq, k)
    ensures c.rq.wrr != [] ==> c.rq.wrr[0] < |c.tasks|
    ensures var e := Switch(c, k, d);
            CellInv(e, r, None) && StaysHere(c.tasks, e.tasks, r) && e.rq.curr == Best(c.rq, k)
  {
    hide AddClock, Counts, PutPrevTask;
    WrrQueued(c, r);
    AddClockOk(c, d, r, None);
    var a := AddClock(c, d);
    AddClockKeeps(c, d);
    var put := if a.rq.curr.Some? then PutPrevTask(a, a.rq.curr.value) else a;
    if a.rq.curr.Some? {
      PutPrevInv(a, a.rq.curr.value, r, None);
    }
    PickInv(put, k, r);
    assert Best(put.rq, k) == Best(c.rq, k);
  }

  lemma AddClockKeeps(c: Cell, d: nat)
    requires CurrKnown(c)
    ensures var a := AddClock(c, d).rq; a == c.rq.(clock := c.rq.clock + d, elapsed := a.elapsed)
  {
  }

  lemma WrrQueued(c: Cell, r: nat)
    requires CellInv(c, r, None)
    ensures c.rq.wrr != [] ==> c.rq.wrr[0] < |c.tasks|
  {
    hide Counts;
    if c.rq.wrr != [] {
      assert In(c.rq, Wrr, c.rq.wrr[0]);
    }
  }

  lemma PickInv(c: Cell, k: Picks, r: nat)
    requires CellInv(c, r, None) && PicksOk(c.rq, k)
    ensures c.rq.wrr != [] ==> c.rq.wrr[0] < |c.tasks|
    ensures var picked := if k.stop.None? && k.rt.None? then PickWrr(c).0 else c;
            var e := picked.(rq := picked.rq.(curr := Best(c.rq, k)));
            CellInv(e, r, None) && StaysHere(c.tasks, e.tasks, r)
  {
    hide Counts;
    WrrQueued(c, r);
    var next := Best(c.rq, k);
    if next.Some? {
      assert In(c.rq, Stop, next.value) || In(c.rq, Rt, next.value) || In(c.rq, Wrr, next.value)
          || In(c.rq, Fair, next.value);
    }
    var picked := if k.stop.None? && k.rt.None? then PickWrr(c).0 else c;
    assert TimesOnly(c.tasks, picked.tasks, r) by {
      assert c.rq.wrr != [] ==> In(c.rq, Wrr, c.rq.wrr[0]);
    }
    PlacedFrame(c.rq, c.tasks, picked.tasks, r, None);
    var e := picked.(rq := picked.rq.(curr := next));
    SameQueues(picked.rq, e.rq, picked.tasks, r, None);
  }
}
