/**
 Runs of the RT hierarchy: enqueue, dequeue, requeue, throttle and replenish steps in any order
 keep the whole-tree invariant.
 */
module RtRuns {
  import opened Basics
  import opened RtQueue
  import opened RtHierarchy

  /** Set or clear `rt_throttled` of one group, nothing else. */
  function SetFlag(c: Cpu, g: Path, b: bool): Cpu
    requires g in c.rqs
  {
    c.(rqs := c.rqs[g := c.rqs[g].(throttled := b)])
  }

  /** `sched_rt_runtime_exceeded` from the moment the budget is found exceeded, with `sched_rt_rq_dequeue`. */
  function Throttle(c: Cpu, g: Path): Cpu
    requires Local(c) && g in c.rqs
  {
    var c1 := SetFlag(c, g, true);
    FlagOk(c, g, true, c1);
    if EffThrottled(c1.rqs[g]) && g != [] && OnRq(c1, Group(g)) then DequeueEntity(c1, Group(g)) else c1
  }

  /** `sched_rt_rq_enqueue`. */
  function RtRqEnqueue(c: Cpu, g: Path): Cpu
    requires Local(c) && g in c.rqs
  {
    if c.rqs[g].nrRunning != 0 && g != [] && !OnRq(c, Group(g)) then
      GroupKnown(c, g);
      EnqueueEntity(c, Group(g), false)
    else c
  }

  /** The period timer finds the debt paid: clear the flag and put the group back. */
  function Unthrottle(c: Cpu, g: Path): Cpu
    requires Local(c) && g in c.rqs
  {
    var c1 := SetFlag(c, g, false);
    FlagOk(c, g, false, c1);
    RtRqEnqueue(c1, g)
  }

  lemma GroupKnown(c: Cpu, g: Path)
    requires Local(c) && g in c.rqs && g != []
    ensures Known(c, Group(g))
  {
  }

  lemma FlagOk(c: Cpu, g: Path, b: bool, d: Cpu)
    requires Local(c) && g in c.rqs && d == SetFlag(c, g, b)
    ensures Local(d) && d.tasks == c.tasks && d.rqs.Keys == c.rqs.Keys
    ensures forall e :: OnRq(d, e) <==> OnRq(c, e)
    ensures forall p :: p in c.rqs && p != g ==> d.rqs[p] == c.rqs[p]
  {
    hide RqOk, Holds, AttrOf;
    FlagRqOk(c.rqs[g], Attrs(c), b);
    ReplaceLocal(c, g, d.rqs[g], d);
    KnownSame(c, d);
  }

  lemma KnownSame(c: Cpu, d: Cpu)
    requires c.tasks == d.tasks && c.rqs.Keys == d.rqs.Keys
    ensures forall x :: (Known(d, x) <==> Known(c, x)) && Owner(d, x) == Owner(c, x)
  {
  }

  /** A flag can only put its own group out of place. */
  lemma FlagInv(c: Cpu, g: Path, b: bool, d: Cpu)
    requires Inv(c) && g in c.rqs && d == SetFlag(c, g, b)
    ensures Local(d) && forall p {:trigger Linked(d, p)} :: p in d.rqs && p != [] && p != g ==> Linked(d, p)
    ensures g != [] ==> Known(d, Group(g)) && InvButChain(d, Group(g))
  {
    hide RqOk, Holds, Above, Parent;
    FlagOk(c, g, b, d);
    forall p | p in d.rqs && p != [] && p != g
      ensures Linked(d, p)
    {
      assert Linked(c, p);
      GroupKnown(c, p);
      GroupKnown(d, p);
    }
    if g != [] {
      GroupKnown(d, g);
    }
  }

  lemma ThrottleOk(c: Cpu, g: Path)
    requires Inv(c) && g in c.rqs
    ensures Inv(Throttle(c, g))
  {
    hide RqOk, Holds, Above, Parent, DequeueEntity, Local, OnRq;
    var c1 := SetFlag(c, g, true);
    FlagInv(c, g, true, c1);
    if g != [] {
      if EffThrottled(c1.rqs[g]) && OnRq(c1, Group(g)) {
        DequeueEntityOk(c1, Group(g), DequeueEntity(c1, Group(g)));
      } else {
        FlagOk(c, g, true, c1);
        assert Linked(c, g);
        GroupKnown(c, g);
      }
    }
  }

  /** `sched_rt_rq_enqueue` repairs a group that is off its parent's queue, whatever took it off. */
  lemma RtRqEnqueueOk(c: Cpu, g: Path)
    requires g in c.rqs && Local(c) && !EffThrottled(c.rqs[g])
    requires OnRq(c, Group(g)) ==> c.rqs[g].nrRunning != 0
    requires forall p {:trigger Linked(c, p)} :: p in c.rqs && p != [] && p != g ==> Linked(c, p)
    ensures Inv(RtRqEnqueue(c, g))
  {
    hide RqOk, Holds, Above, Parent, EnqueueEntity, Local, OnRq;
    if g != [] {
      GroupKnown(c, g);
      if c.rqs[g].nrRunning != 0 && !OnRq(c, Group(g)) {
        EnqueueEntityOk(c, Group(g), false, EnqueueEntity(c, Group(g), false));
      }
    }
  }

  lemma UnthrottleOk(c: Cpu, g: Path)
    requires Inv(c) && g in c.rqs
    ensures Inv(Unthrottle(c, g))
  {
    hide RqOk, Holds, Above, Parent, Local, RtRqEnqueue;
    var c1 := SetFlag(c, g, false);
    FlagInv(c, g, false, c1);
    FlagOk(c, g, false, c1);
    if g != [] {
      assert Linked(c, g);
    }
    RtRqEnqueueOk(c1, g);
  }

  /** `__enable_runtime` clears the flag without re-queueing. That is harmless exactly when the group was
      not being held off its parent's queue; otherwise the next timer pass (`RtRqEnqueueOk`) repairs it. */
  lemma EnableRuntimeKeepsInvIff(c: Cpu, g: Path)
    requires Inv(c) && g in c.rqs
    ensures Inv(SetFlag(c, g, false)) <==> g == [] || !EffThrottled(c.rqs[g]) || c.rqs[g].nrRunning == 0
  {
    hide RqOk, Holds, Above, Parent, Local;
    var d := SetFlag(c, g, false);
    FlagInv(c, g, false, d);
    FlagOk(c, g, false, d);
    if g != [] {
      GroupKnown(c, g);
      assert Linked(c, g);
      if Inv(d) {
        assert Linked(d, g);
      }
    }
  }

  // ----- requeue

  /** `requeue_task_rt`: move e and the queued groups above it to one end of their lists. */
  function RequeueUp(c: Cpu, e: Entity, head: bool): (d: Cpu)
    requires Local(c) && Known(c, e)
    ensures Local(d) && Shuffled(c, d)
    decreases |Owner(c, e)|
  {
    hide Local, Known, OnRq, RqOk, Shuffled;
    var g := Owner(c, e);
    var c1 := RequeueOne(c, e, head);
    RequeueOneOk(c, e, head, c1);
    if g == [] then c1
    else
      var d := RequeueUp(c1, Group(g), head);
      ShuffledTrans(c, c1, d);
      d
  }

  function RequeueOne(c: Cpu, e: Entity, head: bool): Cpu
    requires Local(c) && Known(c, e)
  {
    if OnRq(c, e) then
      var g := Owner(c, e);
      UnlinkWhere(c.rqs[g], e, Attrs(c));
      c.(rqs := c.rqs[g := Requeue(c.rqs[g], e, AttrOf(c, e), head)])
    else c
  }

  /** Same tree, same entities queued in every group: only the order within lists may differ. */
  ghost predicate Shuffled(c: Cpu, d: Cpu)
  {
    && SameTree(c, d)
    && (forall e :: OnRq(d, e) <==> OnRq(c, e))
    && forall p :: p in c.rqs ==> d.rqs[p].nrRunning == c.rqs[p].nrRunning && SameFace(d.rqs[p], c.rqs[p])
  }

  lemma ShuffledTrans(c: Cpu, d: Cpu, f: Cpu)
    requires Shuffled(c, d) && Shuffled(d, f)
    ensures Shuffled(c, f)
  {
    hide OnRq;
  }

  lemma RequeueOneOk(c: Cpu, e: Entity, head: bool, d: Cpu)
    requires Local(c) && Known(c, e) && d == RequeueOne(c, e, head)
    ensures Local(d) && Shuffled(c, d) && Known(d, e) && Owner(d, e) == Owner(c, e)
    ensures Owner(c, e) != [] ==> Known(d, Group(Owner(c, e)))
  {
    hide RqOk, Holds, AttrOf, Requeue, Parent;
    var g := Owner(c, e);
    if OnRq(c, e) {
      RequeueOk(c.rqs[g], e, Attrs(c), head);
      assert SameFace(d.rqs[g], c.rqs[g]);
      ReplaceOk(c, e, d.rqs[g], d);
    }
    if g != [] {
      GroupKnown(d, g);
    }
  }

  lemma ShuffledInv(c: Cpu, d: Cpu)
    requires Inv(c) && Local(d) && Shuffled(c, d)
    ensures Inv(d)
  {
    hide OnRq, RqOk, Holds, Parent;
    forall p | p in d.rqs && p != []
      ensures Linked(d, p)
    {
      assert Linked(c, p);
      GroupKnown(c, p);
      GroupKnown(d, p);
    }
  }

  // ----- every run

  datatype Step =
    | Enqueue(t: nat, head: bool)
    | Dequeue(t: nat)
    | RequeueTask(t: nat, head: bool)
    | ThrottleGroup(g: Path)
    | Replenish(g: Path)
    | SetTask(t: nat, info: RtTask)
    | CreateGroup(g: Path)

  /** What the kernel's callers guarantee: priorities, policies and groups change only while a task is off
      the queues, and groups are created below existing groups. */
  predicate Enabled(c: Cpu, s: Step)
  {
    match s
    case Enqueue(t, _) => t in c.tasks
    case Dequeue(t) => t in c.tasks
    case RequeueTask(t, _) => t in c.tasks
    case ThrottleGroup(g) => g in c.rqs
    case Replenish(g) => g in c.rqs
    case SetTask(t, info) => !OnRq(c, Task(t)) && info.group in c.rqs && info.prio < MAX_RT_PRIO
    case CreateGroup(g) => g !in c.rqs && g != [] && Parent(g) in c.rqs
  }

  function Apply(c: Cpu, s: Step): Cpu
    requires Inv(c) && Enabled(c, s)
  {
    match s
    case Enqueue(t, head) => EnqueueEntity(c, Task(t), head)
    case Dequeue(t) => DequeueEntity(c, Task(t))
    case RequeueTask(t, head) => RequeueUp(c, Task(t), head)
    case ThrottleGroup(g) => Throttle(c, g)
    case Replenish(g) => Unthrottle(c, g)
    case SetTask(t, info) => c.(tasks := c.tasks[t := info])
    case CreateGroup(g) => c.(rqs := c.rqs[g := EmptyRq()])
  }

  lemma InvImpliesButChain(c: Cpu, e: Entity)
    requires Inv(c)
    ensures InvButChain(c, e)
  {
  }

  lemma SetTaskLocal(c: Cpu, t: nat, info: RtTask, d: Cpu)
    requires Local(c) && Enabled(c, SetTask(t, info)) && d == c.(tasks := c.tasks[t := info])
    ensures Local(d) && forall x :: x != Task(t) ==> (OnRq(d, x) <==> OnRq(c, x))
  {
    hide RqOk, Holds, Parent, AttrOf;
    assert forall x :: x != Task(t) ==> (Known(d, x) <==> Known(c, x)) && Owner(d, x) == Owner(c, x);
    forall g | g in d.rqs
      ensures RqOk(d.rqs[g], Attrs(d))
    {
      forall x | Holds(d.rqs[g], x)
        ensures Attrs(c)(x) == Attrs(d)(x)
      {
        AttrSetTask(c, d, t, x);
      }
      RqOkFrame(d.rqs[g], Attrs(c), Attrs(d));
    }
  }

  lemma SetTaskOk(c: Cpu, t: nat, info: RtTask, d: Cpu)
    requires Inv(c) && Enabled(c, SetTask(t, info)) && d == c.(tasks := c.tasks[t := info])
    ensures Inv(d)
  {
    hide OnRq, Local, Parent;
    SetTaskLocal(c, t, info, d);
    forall p | p in d.rqs && p != []
      ensures Linked(d, p)
    {
      assert Linked(c, p);
    }
  }

  lemma AttrSetTask(c: Cpu, d: Cpu, t: nat, x: Entity)
    requires c.rqs == d.rqs && t in d.tasks && d.tasks == c.tasks[t := d.tasks[t]] && x != Task(t)
    ensures AttrOf(c, x) == AttrOf(d, x)
  {
  }

  /** Everything known before is known after a group is added, and belongs where it did. */
  lemma KnownGrows(c: Cpu, g: Path, d: Cpu)
    requires g !in c.rqs && d == c.(rqs := c.rqs[g := EmptyRq()])
    ensures forall x :: Known(c, x) ==> Known(d, x) && Owner(d, x) == Owner(c, x) && x != Group(g)
    ensures forall x :: Known(c, x) ==> AttrOf(d, x) == AttrOf(c, x)
  {
    hide EmptyRq, Parent;
  }

  lemma CreateGroupLocal(c: Cpu, g: Path, d: Cpu)
    requires Inv(c) && Enabled(c, CreateGroup(g)) && d == c.(rqs := c.rqs[g := EmptyRq()])
    ensures Local(d)
  {
    hide RqOk, Holds, Parent, EmptyRq, Linked, AttrOf;
    EmptyRqOk(Attrs(d));
    KnownGrows(c, g, d);
    forall h | h in d.rqs
      ensures RqOk(d.rqs[h], Attrs(d))
    {
      if h != g {
        assert forall x :: Holds(c.rqs[h], x) ==> Known(c, x);
        RqOkFrame(d.rqs[h], Attrs(c), Attrs(d));
      }
    }
    forall p {:trigger Known(d, Group(p))} | p in d.rqs && p != []
      ensures Known(d, Group(p))
    {
      if p != g {
        GroupKnown(c, p);
      }
    }
  }

  lemma CreateGroupOk(c: Cpu, g: Path, d: Cpu)
    requires Inv(c) && Enabled(c, CreateGroup(g)) && d == c.(rqs := c.rqs[g := EmptyRq()])
    ensures Inv(d)
  {
    hide RqOk, Holds, Parent, EmptyRq, Local, Known, Owner;
    CreateGroupLocal(c, g, d);
    forall p | p in d.rqs && p != []
      ensures Linked(d, p)
    {
      CreateGroupLinked(c, g, d, p);
    }
  }

  lemma CreateGroupLinked(c: Cpu, g: Path, d: Cpu, p: Path)
    requires Inv(c) && Enabled(c, CreateGroup(g)) && d == c.(rqs := c.rqs[g := EmptyRq()])
    requires p in d.rqs && p != []
    ensures Linked(d, p)
  {
    hide RqOk, Holds, Parent, EmptyRq;
    EmptyRqOk(Attrs(d));
    OwnerNotBelow(g);
    if p == g {
      NotHeld(c, g);
    } else {
      GroupKnown(c, p);
      assert Linked(c, p);
    }
  }

  /** A group that does not exist is in no queue. */
  lemma NotHeld(c: Cpu, g: Path)
    requires Local(c) && g !in c.rqs
    ensures forall h :: h in c.rqs ==> !Holds(c.rqs[h], Group(g))
  {
    hide RqOk, Holds, Parent;
    forall h | h in c.rqs
      ensures !Holds(c.rqs[h], Group(g))
    {
      assert !Known(c, Group(g));
    }
  }

  lemma TasksKnown(c: Cpu)
    requires Local(c)
    ensures forall t :: t in c.tasks ==> Known(c, Task(t))
  {
  }

  lemma EnqueueStepOk(c: Cpu, t: nat, head: bool)
    requires Inv(c) && t in c.tasks
    ensures Known(c, Task(t)) && Inv(EnqueueEntity(c, Task(t), head))
  {
    hide Linked, RqOk, Holds, EnqueueEntity;
    TasksKnown(c);
    InvImpliesButChain(c, Task(t));
    EnqueueEntityOk(c, Task(t), head, EnqueueEntity(c, Task(t), head));
  }

  lemma DequeueStepOk(c: Cpu, t: nat)
    requires Inv(c) && t in c.tasks
    ensures Known(c, Task(t)) && Inv(DequeueEntity(c, Task(t)))
  {
    hide Linked, RqOk, Holds, DequeueEntity;
    TasksKnown(c);
    InvImpliesButChain(c, Task(t));
    DequeueEntityOk(c, Task(t), DequeueEntity(c, Task(t)));
  }

  lemma RequeueStepOk(c: Cpu, t: nat, head: bool)
    requires Inv(c) && t in c.tasks
    ensures Known(c, Task(t)) && Inv(RequeueUp(c, Task(t), head))
  {
    hide Linked, RqOk, Holds, RequeueUp, Shuffled;
    TasksKnown(c);
    ShuffledInv(c, RequeueUp(c, Task(t), head));
  }

  lemma ApplyOk(c: Cpu, s: Step)
    requires Inv(c) && Enabled(c, s)
    ensures Inv(Apply(c, s))
  {
    hide Inv, Known, OnRq, EnqueueEntity, DequeueEntity, RequeueUp, Throttle, Unthrottle, EmptyRq, Parent;
    match s
    case Enqueue(t, head) => EnqueueStepOk(c, t, head);
    case Dequeue(t) => DequeueStepOk(c, t);
    case RequeueTask(t, head) => RequeueStepOk(c, t, head);
    case ThrottleGroup(g) => ThrottleOk(c, g);
    case Replenish(g) => UnthrottleOk(c, g);
    case SetTask(t, info) => SetTaskOk(c, t, info, Apply(c, s));
    case CreateGroup(g) => CreateGroupOk(c, g, Apply(c, s));
  }
}
