/**
 One run queue under the scheduling classes: the WRR class's hooks in full, the other classes as queues with
 counters, the class-ordered pick with its all-fair shortcut, and preemption across classes.
 */
module SchedClasses {
  import opened Basics
  import opened WrrRotation

  /** In the order `for_each_class` visits them. */
  datatype Class = Stop | Rt | Wrr | Fair | Idle

  datatype Policy = Normal | Fifo | RoundRobin | Batch | IdlePolicy | WrrPolicy

  datatype Task = Task(
    onRq: bool,
    cls: Class,
    policy: Policy,
    rtPriority: nat,
    staticPrio: nat,
    prio: int,
    cpu: nat,
    group: string,
    slice: nat,
    execStart: nat,
    sumExec: nat)

  /** `curr` is None when the idle task runs. `elapsed` and `charged` are history: clock time that passed with a
      WRR task current, and time charged to WRR tasks. */
  datatype Rq = Rq(
    stop: set<nat>,
    rt: set<nat>,
    fair: set<nat>,
    wrr: seq<nat>,
    wrrNr: int,
    fairNr: int,
    nrRunning: int,
    curr: Option<nat>,
    clock: nat,
    elapsed: nat,
    charged: nat)

  /** What a class hook works on: one run queue and the tasks. */
  datatype Cell = Cell(rq: Rq, tasks: seq<Task>)

  predicate CurrKnown(c: Cell)
  {
    c.rq.curr.Some? ==> c.rq.curr.value < |c.tasks|
  }

  predicate WrrCurrent(c: Cell)
    requires CurrKnown(c)
  {
    c.rq.curr.Some? && c.tasks[c.rq.curr.value].cls.Wrr?
  }

  /** `update_rq_clock`, as far as `clock_task` goes. */
  function AddClock(c: Cell, d: nat): Cell
    requires CurrKnown(c)
  {
    c.(rq := c.rq.(clock := c.rq.clock + d, elapsed := c.rq.elapsed + if WrrCurrent(c) then d else 0))
  }

  // ---- The WRR class ----

  function UpdateCurrWrr(c: Cell): (r: Cell)
    requires CurrKnown(c)
    ensures |r.tasks| == |c.tasks| && r.rq == c.rq.(charged := r.rq.charged)
    ensures CurrKnown(r)
  {
    if !WrrCurrent(c) then c
    else
      var p := c.rq.curr.value;
      var t := c.tasks[p];
      var delta := if c.rq.clock < t.execStart then 0 else c.rq.clock - t.execStart;
      Cell(c.rq.(charged := c.rq.charged + delta),
           c.tasks[p := t.(sumExec := t.sumExec + delta, execStart := c.rq.clock)])
  }

  function EnqueueWrr(c: Cell, p: nat, head: bool): Cell
  {
    c.(rq := c.rq.(wrr := Link(c.rq.wrr, p, head), wrrNr := c.rq.wrrNr + 1, nrRunning := c.rq.nrRunning + 1))
  }

  function DequeueWrr(c: Cell, p: nat): Cell
    requires CurrKnown(c)
  {
    var u := UpdateCurrWrr(c);
    u.(rq := u.rq.(wrr := Without(u.rq.wrr, p), wrrNr := u.rq.wrrNr - 1, nrRunning := u.rq.nrRunning - 1))
  }

  /** `list_move` and `list_move_tail`. */
  function RequeueWrr(c: Cell, p: nat, head: bool): Cell
  {
    c.(rq := c.rq.(wrr := Link(Without(c.rq.wrr, p), p, head)))
  }

  function PutPrevWrr(c: Cell, p: nat): Cell
    requires CurrKnown(c) && p < |c.tasks|
  {
    var u := UpdateCurrWrr(c);
    u.(tasks := u.tasks[p := u.tasks[p].(execStart := 0)])
  }

  function SetCurrWrr(c: Cell): Cell
    requires CurrKnown(c) && c.rq.curr.Some?
  {
    var p := c.rq.curr.value;
    c.(tasks := c.tasks[p := c.tasks[p].(execStart := c.rq.clock)])
  }

  /** The head of the queue, which starts to be timed. */
  function PickWrr(c: Cell): (Cell, Option<nat>)
    requires c.rq.wrr != [] ==> c.rq.wrr[0] < |c.tasks|
  {
    if c.rq.wrrNr == 0 || c.rq.wrr == [] then (c, None)
    else
      var p := c.rq.wrr[0];
      (c.(tasks := c.tasks[p := c.tasks[p].(execStart := c.rq.clock)]), Some(p))
  }

  /** `task_tick_wrr` on the running task, with what a slice that runs out would become; the second part says whether
      a reschedule is asked for. */
  function TickWrr(c: Cell, refill: nat): (Cell, bool)
    requires CurrKnown(c) && c.rq.curr.Some?
  {
    var p := c.rq.curr.value;
    var u := UpdateCurrWrr(c);
    var t := u.tasks[p];
    if t.policy != WrrPolicy then (u, false)
    else
      var left := Dec(t.slice);
      if left != 0 then (u.(tasks := u.tasks[p := t.(slice := left)]), false)
      else
        var f := u.(tasks := u.tasks[p := t.(slice := refill)]);
        if |f.rq.wrr| >= 2 then (RequeueWrr(f, p, false), true) else (f, false)
  }

  // ---- All classes ----

  function EnqueueTask(c: Cell, p: nat, head: bool): Cell
    requires p < |c.tasks|
  {
    var rq := c.rq.(nrRunning := c.rq.nrRunning + 1);
    match c.tasks[p].cls
    case Wrr => EnqueueWrr(c, p, head)
    case Stop => c.(rq := rq.(stop := rq.stop + {p}))
    case Rt => c.(rq := rq.(rt := rq.rt + {p}))
    case Fair => c.(rq := rq.(fair := rq.fair + {p}, fairNr := rq.fairNr + 1))
    case Idle => c
  }

  function DequeueTask(c: Cell, p: nat): Cell
    requires p < |c.tasks| && CurrKnown(c)
  {
    var rq := c.rq.(nrRunning := c.rq.nrRunning - 1);
    match c.tasks[p].cls
    case Wrr => DequeueWrr(c, p)
    case Stop => c.(rq := rq.(stop := rq.stop - {p}))
    case Rt => c.(rq := rq.(rt := rq.rt - {p}))
    case Fair => c.(rq := rq.(fair := rq.fair - {p}, fairNr := rq.fairNr - 1))
    case Idle => c
  }

  function PutPrevTask(c: Cell, p: nat): Cell
    requires p < |c.tasks| && CurrKnown(c)
  {
    if c.tasks[p].cls.Wrr? then PutPrevWrr(c, p) else c
  }

  function SetCurrTask(c: Cell): Cell
    requires CurrKnown(c) && c.rq.curr.Some?
  {
    if WrrCurrent(c) then SetCurrWrr(c) else c
  }

  /** Which tasks a class's queue holds. */
  predicate In(rq: Rq, cls: Class, p: nat)
  {
    match cls
    case Stop => p in rq.stop
    case Rt => p in rq.rt
    case Wrr => p in rq.wrr
    case Fair => p in rq.fair
    case Idle => false
  }

  /** The counters agree with the queues. */
  ghost predicate Counts(rq: Rq)
  {
    && Distinct(rq.wrr)
    && rq.wrrNr == |rq.wrr|
    && rq.fairNr == |rq.fair|
    && rq.nrRunning == |rq.stop| + |rq.rt| + |rq.wrr| + |rq.fair|
  }

  /** Enqueueing adds exactly the task, to exactly its class's queue, and counts it. */
  lemma EnqueueOk(c: Cell, p: nat, head: bool)
    requires p < |c.tasks| && Counts(c.rq) && !In(c.rq, c.tasks[p].cls, p) && !c.tasks[p].cls.Idle?
    ensures var e := EnqueueTask(c, p, head);
            && Counts(e.rq) && e.tasks == c.tasks
            && (forall cls, x :: In(e.rq, cls, x) <==> In(c.rq, cls, x) || (cls == c.tasks[p].cls && x == p))
  {
    hide EnqueueTask, In, Counts;
    EnqueueCounts(c, p, head);
    forall cls, x
      ensures In(EnqueueTask(c, p, head).rq, cls, x) <==> In(c.rq, cls, x) || (cls == c.tasks[p].cls && x == p)
    {
      EnqueueIn(c, p, head, cls, x);
    }
  }

  lemma EnqueueIn(c: Cell, p: nat, head: bool, cls: Class, x: nat)
    requires p < |c.tasks| && Counts(c.rq) && !In(c.rq, c.tasks[p].cls, p) && !c.tasks[p].cls.Idle?
    ensures In(EnqueueTask(c, p, head).rq, cls, x) <==> In(c.rq, cls, x) || (cls == c.tasks[p].cls && x == p)
  {
    hide Distinct, Link;
    if c.tasks[p].cls.Wrr? {
      LinkOk(c.rq.wrr, p, head);
    }
  }

  lemma EnqueueCounts(c: Cell, p: nat, head: bool)
    requires p < |c.tasks| && Counts(c.rq) && !In(c.rq, c.tasks[p].cls, p) && !c.tasks[p].cls.Idle?
    ensures Counts(EnqueueTask(c, p, head).rq) && EnqueueTask(c, p, head).tasks == c.tasks
  {
    hide Distinct, Link;
    if c.tasks[p].cls.Wrr? {
      LinkOk(c.rq.wrr, p, head);
    }
  }

  lemma EnqueueWrrOk(c: Cell, p: nat, head: bool)
    requires Counts(c.rq) && p !in c.rq.wrr
    ensures var e := EnqueueWrr(c, p, head);
            && Counts(e.rq) && e.tasks == c.tasks
            && (forall cls, x :: In(e.rq, cls, x) <==> In(c.rq, cls, x) || (cls.Wrr? && x == p))
  {
    var e := EnqueueWrr(c, p, head);
    LinkOk(c.rq.wrr, p, head);
    forall cls, x ensures In(e.rq, cls, x) <==> In(c.rq, cls, x) || (cls.Wrr? && x == p) {
    }
  }

  /** Dequeueing takes out exactly the task, from exactly its class's queue, and discounts it. */
  lemma DequeueOk(c: Cell, p: nat)
    requires p < |c.tasks| && Counts(c.rq) && CurrKnown(c) && In(c.rq, c.tasks[p].cls, p)
    ensures var e := DequeueTask(c, p);
            && Counts(e.rq)
            && (forall cls, x :: In(e.rq, cls, x) <==> In(c.rq, cls, x) && !(cls == c.tasks[p].cls && x == p))
  {
    hide DequeueTask, In, Counts;
    DequeueCounts(c, p);
    forall cls, x
      ensures In(DequeueTask(c, p).rq, cls, x) <==> In(c.rq, cls, x) && !(cls == c.tasks[p].cls && x == p)
    {
      DequeueIn(c, p, cls, x);
    }
  }

  lemma DequeueIn(c: Cell, p: nat, cls: Class, x: nat)
    requires p < |c.tasks| && Counts(c.rq) && CurrKnown(c) && In(c.rq, c.tasks[p].cls, p)
    ensures In(DequeueTask(c, p).rq, cls, x) <==> In(c.rq, cls, x) && !(cls == c.tasks[p].cls && x == p)
  {
    hide Distinct, Without, UpdateCurrWrr;
    WithoutOk(c.rq.wrr, p);
  }

  lemma DequeueCounts(c: Cell, p: nat)
    requires p < |c.tasks| && Counts(c.rq) && CurrKnown(c) && In(c.rq, c.tasks[p].cls, p)
    ensures Counts(DequeueTask(c, p).rq)
  {
    hide Distinct, Without, UpdateCurrWrr;
    WithoutOk(c.rq.wrr, p);
  }

  /** A task moved within the WRR queue leaves every queue with the same tasks. */
  lemma RequeueOk(c: Cell, p: nat, head: bool)
    requires Counts(c.rq) && p in c.rq.wrr
    ensures var e := RequeueWrr(c, p, head);
            Counts(e.rq) && forall cls, x :: In(e.rq, cls, x) <==> In(c.rq, cls, x)
  {
    WithoutOk(c.rq.wrr, p);
    assert Distinct(RequeueWrr(c, p, head).rq.wrr);
  }

  // ---- Picking across classes ----

  /** What the stop, RT and fair classes offer when asked: chosen inside each class. An RT class with queued tasks
      may offer nothing, when it is throttled. */
  datatype Picks = Picks(stop: Option<nat>, rt: Option<nat>, fair: Option<nat>)

  predicate OfferOk(o: Option<nat>, queue: set<nat>)
  {
    if o.Some? then o.value in queue else queue == {}
  }

  predicate PicksOk(rq: Rq, k: Picks)
  {
    && OfferOk(k.stop, rq.stop)
    && OfferOk(k.fair, rq.fair)
    && (k.rt.Some? ==> k.rt.value in rq.rt)
  }

  function Offer(rq: Rq, k: Picks, cls: Class): Option<nat>
  {
    match cls
    case Stop => k.stop
    case Rt => k.rt
    case Wrr => if rq.wrrNr == 0 || rq.wrr == [] then None else Some(rq.wrr[0])
    case Fair => k.fair
    case Idle => None
  }

  function ClassRank(cls: Class): nat
  {
    match cls
    case Stop => 0
    case Rt => 1
    case Wrr => 2
    case Fair => 3
    case Idle => 4
  }

  /** `class->next`. */
  function NextClass(cls: Class): Option<Class>
  {
    match cls
    case Stop => Some(Rt)
    case Rt => Some(Wrr)
    case Wrr => Some(Fair)
    case Fair => Some(Idle)
    case Idle => None
  }

  /** The task to run: that of the highest class with something to offer. */
  ghost predicate IsBest(rq: Rq, k: Picks, r: Option<nat>)
  {
    if r.None? then forall cls :: Offer(rq, k, cls).None?
    else exists cls ::
           Offer(rq, k, cls) == r && forall other :: ClassRank(other) < ClassRank(cls) ==> Offer(rq, k, other).None?
  }

  /** The class walk, without the shortcut. */
  function Best(rq: Rq, k: Picks): Option<nat>
  {
    if k.stop.Some? then k.stop
    else if k.rt.Some? then k.rt
    else if Offer(rq, k, Wrr).Some? then Offer(rq, k, Wrr)
    else k.fair
  }

  lemma BestUnique(rq: Rq, k: Picks, r: Option<nat>)
    ensures IsBest(rq, k, r) <==> r == Best(rq, k)
  {
    var b := Best(rq, k);
    assert b.Some? ==>
             Offer(rq, k, Stop) == b || Offer(rq, k, Rt) == b || Offer(rq, k, Wrr) == b || Offer(rq, k, Fair) == b;
    assert IsBest(rq, k, b);
  }

  /** `pick_next_task` with the shortcut; None stands for the idle task. Where the counters agree with the queues
      the shortcut never picks past a higher class. */
  method PickNextTask(rq: Rq, k: Picks) returns (r: Option<nat>)
    requires PicksOk(rq, k) && Counts(rq)
    ensures IsBest(rq, k, r) && r == Best(rq, k)
    ensures r.Some? ==> exists cls :: In(rq, cls, r.value)
  {
    if rq.nrRunning == rq.fairNr {
      r := k.fair;
      if r.Some? {
        OnlyFair(rq, k);
        assert Offer(rq, k, Fair) == r;
        BestUnique(rq, k, r);
        assert In(rq, Fair, r.value);
        return;
      }
    }
    var cls := Stop;
    while true
      invariant forall other :: ClassRank(other) < ClassRank(cls) ==> Offer(rq, k, other).None?
      decreases 5 - ClassRank(cls)
    {
      r := Offer(rq, k, cls);
      if r.Some? {
        BestUnique(rq, k, r);
        assert In(rq, cls, r.value);
        return;
      }
      var next := NextClass(cls);
      if next.None? {
        BestUnique(rq, k, r);
        return;
      }
      cls := next.value;
    }
  }

  /** When everything counted is fair, no other class has anything to offer. */
  lemma OnlyFair(rq: Rq, k: Picks)
    requires PicksOk(rq, k) && Counts(rq) && rq.nrRunning == rq.fairNr
    ensures forall cls :: cls != Fair ==> Offer(rq, k, cls).None?
  {
    assert |rq.stop| == 0 && |rq.rt| == 0 && |rq.wrr| == 0;
    assert rq.stop == {} && rq.rt == {};
  }

  /** With counters that do not agree the shortcut can pick past a waiting RT task. */
  lemma ShortcutNeedsCounts() returns (rq: Rq, k: Picks)
    ensures PicksOk(rq, k) && !Counts(rq)
    ensures rq.nrRunning == rq.fairNr && k.fair.Some? && !IsBest(rq, k, k.fair)
  {
    rq := Rq({}, {7}, {8}, [], 0, 1, 1, None, 0, 0, 0);
    k := Picks(None, Some(7), Some(8));
    forall cls ensures !(Offer(rq, k, cls) == k.fair
                         && forall other :: ClassRank(other) < ClassRank(cls) ==> Offer(rq, k, other).None?) {
      assert Offer(rq, k, Rt).Some?;
    }
    assert |rq.rt| == 1;
  }

  function CurrClass(c: Cell): Class
    requires CurrKnown(c)
  {
    if c.rq.curr.None? then Idle else c.tasks[c.rq.curr.value].cls
  }

  /** `check_preempt_curr`: whether the current task is marked. Within one class the class decides (`inClass`),
      and the WRR class never preempts; across classes exactly a strictly higher class does. */
  method CheckPreemptCurr(c: Cell, p: nat, inClass: bool) returns (mark: bool)
    requires CurrKnown(c) && p < |c.tasks|
    ensures c.tasks[p].cls != CurrClass(c) ==> (mark <==> ClassRank(c.tasks[p].cls) < ClassRank(CurrClass(c)))
    ensures c.tasks[p].cls == CurrClass(c) ==> (mark <==> inClass && !c.tasks[p].cls.Wrr?)
  {
    mark := false;
    if c.tasks[p].cls == CurrClass(c) {
      mark := inClass && !c.tasks[p].cls.Wrr?;
    } else {
      var cls := Stop;
      while true
        invariant !mark
        invariant ClassRank(cls) <= ClassRank(CurrClass(c))
        invariant ClassRank(cls) <= ClassRank(c.tasks[p].cls)
        decreases 5 - ClassRank(cls)
      {
        if cls == CurrClass(c) {
          break;
        }
        if cls == c.tasks[p].cls {
          mark := true;
          break;
        }
        var next := NextClass(cls);
        if next.None? {
          break;
        }
        cls := next.value;
      }
    }
  }
}
