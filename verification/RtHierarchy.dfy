/**
 The tree of RT run queues of one CPU. A group's place in its parent's array is the best
 priority queued beneath it, so an entity may be changed only after everything above it
 has been taken out, top down, and everything above is put back bottom up.
 */
module RtHierarchy {
  import opened Basics
  import opened RtQueue

  datatype RtTask = RtTask(prio: nat, normalPrio: nat, group: Path)

  /** The RT state of one CPU: its RT tasks and the run queue of every group, the root's at []. */
  datatype Cpu = Cpu(tasks: map<nat, RtTask>, rqs: map<Path, RtRq>)

  /** p is q or one of its ancestors. */
  predicate Above(p: Path, q: Path)
  {
    p <= q
  }

  predicate Known(c: Cpu, e: Entity)
  {
    match e
    case Task(t) => t in c.tasks && c.tasks[t].group in c.rqs
    case Group(p) => p != [] && p in c.rqs && Parent(p) in c.rqs
  }

  ghost predicate WfTree(c: Cpu)
  {
    && [] in c.rqs
    && (forall p {:trigger Known(c, Group(p))} :: p in c.rqs && p != [] ==> Known(c, Group(p)))
    && (forall t :: t in c.tasks ==> Known(c, Task(t)) && c.tasks[t].prio < MAX_RT_PRIO)
  }

  /** `rt_rq_of_se`: the group on whose queue the entity goes. */
  function Owner(c: Cpu, e: Entity): Path
  {
    match e
    case Task(t) => if t in c.tasks then c.tasks[t].group else []
    case Group(p) => Parent(p)
  }

  /** `rt_se_prio` and `rt_se_boosted`. */
  function AttrOf(c: Cpu, e: Entity): Attr
  {
    match e
    case Task(t) =>
      if t in c.tasks then Attr(c.tasks[t].prio, c.tasks[t].prio != c.tasks[t].normalPrio) else Attr(0, false)
    case Group(p) =>
      if p in c.rqs then Attr(c.rqs[p].highest, c.rqs[p].nrBoosted != 0) else Attr(0, false)
  }

  function Attrs(c: Cpu): Entity -> Attr
  {
    e => AttrOf(c, e)
  }

  /** `on_rt_rq`. */
  predicate OnRq(c: Cpu, e: Entity)
  {
    Known(c, e) && Holds(c.rqs[Owner(c, e)], e)
  }

  /** `__enqueue_rt_entity` refuses a group that is throttled or empty. */
  predicate Eligible(c: Cpu, e: Entity)
  {
    Known(c, e) && (e.Group? ==> !EffThrottled(c.rqs[e.path]) && c.rqs[e.path].nrRunning != 0)
  }

  /** Every queue of the tree is internally consistent and holds only entities that belong to it. */
  ghost predicate Local(c: Cpu)
  {
    && WfTree(c)
    && (forall g :: g in c.rqs ==> RqOk(c.rqs[g], Attrs(c)))
    && (forall g, e :: g in c.rqs && Holds(c.rqs[g], e) ==> Known(c, e) && Owner(c, e) == g)
  }

  /** A group is queued in its parent exactly when it has something to run and may run it. */
  ghost predicate Linked(c: Cpu, p: Path)
  {
    OnRq(c, Group(p)) <==> Eligible(c, Group(p))
  }

  ghost predicate Inv(c: Cpu)
  {
    && Local(c)
    && forall p {:trigger Linked(c, p)} :: p in c.rqs && p != [] ==> Linked(c, p)
  }

  // ----- one entity

  /** `__enqueue_rt_entity`. */
  function Enq(c: Cpu, e: Entity, head: bool): Cpu
    requires Local(c) && Known(c, e)
  {
    if !Eligible(c, e) then c
    else
      var g := Owner(c, e);
      EligiblePrio(c, e);
      c.(rqs := c.rqs[g := Push(c.rqs[g], e, AttrOf(c, e), head)])
  }

  /** `__dequeue_rt_entity`, for an entity that is queued. */
  function Deq(c: Cpu, e: Entity): Cpu
    requires Local(c) && OnRq(c, e)
  {
    var g := Owner(c, e);
    UnlinkWhere(c.rqs[g], e, Attrs(c));
    c.(rqs := c.rqs[g := Pull(c.rqs[g], e, AttrOf(c, e))])
  }

  lemma EligiblePrio(c: Cpu, e: Entity)
    requires Local(c) && Eligible(c, e)
    ensures 0 <= AttrOf(c, e).prio < MAX_RT_PRIO
  {
    if e.Group? {
      HighestMeaning(c.rqs[e.path], Attrs(c));
    }
  }

  /** Only list contents and counters differ: same tasks, same groups, same throttle flags. */
  ghost predicate SameTree(c: Cpu, d: Cpu)
  {
    && c.tasks == d.tasks
    && c.rqs.Keys == d.rqs.Keys
    && forall p :: p in c.rqs ==> c.rqs[p].throttled == d.rqs[p].throttled
  }

  /** From c to d, only e may have been linked or unlinked, and only its owner's queue changed. */
  ghost predicate OnlyMoved(c: Cpu, d: Cpu, e: Entity)
  {
    && SameTree(c, d)
    && (forall x :: x != e ==> (OnRq(d, x) <==> OnRq(c, x)))
    && (forall p :: p in c.rqs && p != Owner(c, e) ==> d.rqs[p] == c.rqs[p])
  }

  /** The entity of the group that owns e's queue is not queued itself. */
  ghost predicate Detached(c: Cpu, e: Entity)
  {
    Owner(c, e) == [] || !OnRq(c, Group(Owner(c, e)))
  }

  /** Equal as far as the queue above can tell. */
  predicate SameFace(r: RtRq, s: RtRq)
  {
    r.highest == s.highest && r.nrBoosted == s.nrBoosted
  }

  /** Changing one queue is harmless when the entity of that queue's group is not queued itself,
      or cannot see the change. */
  lemma ReplaceLocal(c: Cpu, g: Path, r: RtRq, d: Cpu)
    requires Local(c) && g in c.rqs && d == c.(rqs := c.rqs[g := r])
    requires g == [] || !OnRq(c, Group(g)) || SameFace(r, c.rqs[g])
    requires RqOk(r, Attrs(c)) && forall x :: Holds(r, x) ==> Known(c, x) && Owner(c, x) == g
    ensures Local(d) && d.rqs.Keys == c.rqs.Keys
  {
    hide RqOk, Holds;
    assert d.rqs.Keys == c.rqs.Keys + {g} == c.rqs.Keys;
    assert forall x :: (Known(d, x) <==> Known(c, x)) && Owner(d, x) == Owner(c, x);
    forall h | h in d.rqs
      ensures RqOk(d.rqs[h], Attrs(d))
    {
      forall x | Holds(d.rqs[h], x)
        ensures Attrs(c)(x) == Attrs(d)(x)
      {
        assert Known(c, x) && Owner(c, x) == h;
      }
      RqOkFrame(d.rqs[h], Attrs(c), Attrs(d));
    }
  }

  lemma ReplaceOk(c: Cpu, e: Entity, r: RtRq, d: Cpu)
    requires Local(c) && Known(c, e)
    requires Detached(c, e) || SameFace(r, c.rqs[Owner(c, e)])
    requires d == c.(rqs := c.rqs[Owner(c, e) := r])
    requires RqOk(r, Attrs(c)) && r.throttled == c.rqs[Owner(c, e)].throttled
    requires forall x :: x != e ==> (Holds(r, x) <==> Holds(c.rqs[Owner(c, e)], x))
    ensures Local(d) && OnlyMoved(c, d, e) && (OnRq(d, e) <==> Holds(r, e))
  {
    hide RqOk, Holds, SameFace, AttrOf, WfTree, Parent;
    ReplaceLocal(c, Owner(c, e), r, d);
    hide Local;
    forall x | x != e
      ensures OnRq(d, x) <==> OnRq(c, x)
    {
    }
  }

  lemma ArrayOk(c: Cpu, g: Path)
    requires Local(c) && g in c.rqs
    ensures ArrayShape(c.rqs[g])
  {
  }

  lemma DeqOk(c: Cpu, e: Entity, d: Cpu)
    requires Local(c) && OnRq(c, e) && Detached(c, e) && d == Deq(c, e)
    ensures Local(d) && OnlyMoved(c, d, e) && !OnRq(d, e)
  {
    hide RqOk, Holds, Pull, OnlyMoved, Detached;
    var g := Owner(c, e);
    PullOk(c.rqs[g], e, Attrs(c));
    ArrayOk(c, g);
    ReplaceOk(c, e, Pull(c.rqs[g], e, AttrOf(c, e)), d);
  }

  lemma EnqOk(c: Cpu, e: Entity, head: bool, d: Cpu)
    requires Local(c) && Known(c, e) && !OnRq(c, e) && Detached(c, e) && d == Enq(c, e, head)
    ensures Local(d) && OnlyMoved(c, d, e) && (OnRq(d, e) <==> Eligible(c, e))
  {
    hide RqOk, Holds, Push, Eligible, Detached;
    if Eligible(c, e) {
      var g := Owner(c, e);
      EligiblePrio(c, e);
      PushOk(c.rqs[g], e, Attrs(c), head);
      ArrayOk(c, g);
      ReplaceOk(c, e, Push(c.rqs[g], e, AttrOf(c, e), head), d);
    }
  }

  // ----- the chain of entities from e up to the root queue

  /** `x` is `e` or a group entity above it: what `for_each_sched_rt_entity` visits from e. */
  ghost predicate InChain(e: Entity, owner: Path, x: Entity)
  {
    x == e || (x.Group? && x.path != [] && Above(x.path, owner))
  }

  ghost predicate ChainOff(c: Cpu, e: Entity)
  {
    forall x :: InChain(e, Owner(c, e), x) ==> !OnRq(c, x)
  }

  /** From c to d only queues that hold entities of e's chain changed, and only those entities moved. */
  ghost predicate OnlyChain(c: Cpu, d: Cpu, e: Entity)
  {
    && SameTree(c, d)
    && (forall x :: !InChain(e, Owner(c, e), x) ==> (OnRq(d, x) <==> OnRq(c, x)))
    && (forall p :: p in c.rqs && !Above(p, Owner(c, e)) ==> d.rqs[p] == c.rqs[p])
  }

  lemma AboveParent(p: Path, q: Path)
    ensures Above(p, q) <==> p == q || (q != [] && Above(p, Parent(q)))
    ensures Above(p, []) <==> p == []
  {
    if Above(p, q) && p != q {
      assert |p| < |q|;
    }
  }

  /** The chain of e is e followed by the chain of the group that owns e's queue. */
  lemma ChainUp(c: Cpu, e: Entity)
    requires Known(c, e)
    ensures Owner(c, e) == [] ==> forall x :: InChain(e, Owner(c, e), x) <==> x == e
    ensures Owner(c, e) != [] ==>
      && (forall x :: InChain(e, Owner(c, e), x) <==> x == e || InChain(Group(Owner(c, e)), Parent(Owner(c, e)), x))
      && !InChain(Group(Owner(c, e)), Parent(Owner(c, e)), e)
      && (forall p :: Above(p, Parent(Owner(c, e))) ==> Above(p, Owner(c, e)))
    ensures Above(Owner(c, e), Owner(c, e))
  {
    var g := Owner(c, e);
    forall p
      ensures Above(p, g) <==> p == g || (g != [] && Above(p, Parent(g)))
    {
      AboveParent(p, g);
    }
  }

  /** One step of the top-down loop of `dequeue_rt_stack`. */
  function TakeOut(c: Cpu, e: Entity): Cpu
    requires Local(c) && Known(c, e)
  {
    if OnRq(c, e) then Deq(c, e) else c
  }

  lemma TakeOutOk(c: Cpu, e: Entity, c1: Cpu, d: Cpu)
    requires Local(c) && Known(c, e) && Local(c1) && Known(c1, e)
    requires Owner(c, e) == [] ==> c1 == c
    requires Owner(c, e) != [] ==>
      OnlyChain(c, c1, Group(Owner(c, e))) && ChainOff(c1, Group(Owner(c, e)))
    requires d == TakeOut(c1, e)
    ensures Local(d) && OnlyChain(c, d, e) && ChainOff(d, e)
  {
    hide Local, OnRq, Known, Deq, Parent, Above;
    assert c1.tasks == c.tasks && Owner(c1, e) == Owner(c, e);
    ChainUp(c, e);
    if OnRq(c1, e) {
      DeqOk(c1, e, d);
    }
  }

  /** `dequeue_rt_stack`: take out e and everything above it, top down. */
  function DeqStack(c: Cpu, e: Entity): (d: Cpu)
    requires Local(c) && Known(c, e)
    ensures Local(d) && OnlyChain(c, d, e) && ChainOff(d, e)
    decreases |Owner(c, e)|
  {
    var g := Owner(c, e);
    var c1 := if g == [] then c else DeqStack(c, Group(g));
    TakeOutOk(c, e, c1, TakeOut(c1, e));
    TakeOut(c1, e)
  }

  /** Every group above e, and e itself if it is one, is queued exactly when it should be. */
  ghost predicate ChainLinked(c: Cpu, e: Entity)
  {
    forall p :: InChain(e, Owner(c, e), Group(p)) ==> Linked(c, p)
  }

  lemma PutOk(c: Cpu, e: Entity, head: bool, c1: Cpu)
    requires Local(c) && Known(c, e) && ChainOff(c, e) && c1 == Enq(c, e, head)
    ensures Local(c1) && (OnRq(c1, e) <==> Eligible(c, e)) && OnlyMoved(c, c1, e)
    ensures Owner(c, e) != [] ==> Known(c1, Group(Owner(c, e))) && ChainOff(c1, Group(Owner(c, e)))
  {
    hide OnRq, Enq, Parent, Above;
    ChainUp(c, e);
    assert !OnRq(c, e);
    EnqOk(c, e, head, c1);
  }

  lemma PutUpOk(c: Cpu, e: Entity, c1: Cpu, d: Cpu)
    requires Known(c, e) && OnlyMoved(c, c1, e) && (OnRq(c1, e) <==> Eligible(c, e))
    requires Owner(c, e) == [] ==> d == c1
    requires Owner(c, e) != [] ==> OnlyChain(c1, d, Group(Owner(c, e))) && ChainLinked(d, Group(Owner(c, e)))
    ensures OnlyChain(c, d, e) && ChainLinked(d, e) && (OnRq(d, e) <==> Eligible(c, e))
  {
    hide OnRq, Parent, Above;
    ChainUp(c, e);
    var g := Owner(c, e);
    assert Owner(c1, e) == g && Owner(d, e) == g;
    if e.Group? {
      OwnerNotBelow(e.path);
      assert d.rqs[e.path] == c.rqs[e.path];
    }
  }

  lemma OwnerNotBelow(p: Path)
    requires p != []
    ensures !Above(p, Parent(p)) && p != Parent(p)
    ensures !Above(p, Parent(Parent(p)))
  {
  }

  /** The bottom-up loop of `enqueue_rt_entity`. */
  function EnqUp(c: Cpu, e: Entity, head: bool): (d: Cpu)
    requires Local(c) && Known(c, e) && ChainOff(c, e)
    ensures Local(d) && OnlyChain(c, d, e) && ChainLinked(d, e) && (OnRq(d, e) <==> Eligible(c, e))
    decreases |Owner(c, e)|
  {
    hide Local, OnRq, Known, ChainOff, ChainLinked, OnlyChain, OnlyMoved, Eligible;
    var g := Owner(c, e);
    var c1 := Enq(c, e, head);
    PutOk(c, e, head, c1);
    var d := if g == [] then c1 else EnqUp(c1, Group(g), head);
    PutUpOk(c, e, c1, d);
    d
  }

  /** The bottom-up loop of `dequeue_rt_entity`: put back the groups that still have something queued. */
  function Restore(c: Cpu, e: Entity): (d: Cpu)
    requires Local(c) && Known(c, e) && ChainOff(c, e)
    ensures Local(d) && OnlyChain(c, d, e)
    ensures e.Group? ==> d == EnqUp(c, e, false)
    ensures e.Task? ==> ChainLinked(d, e) && !OnRq(d, e)
    decreases |Owner(c, e)|
  {
    hide Local, OnRq, Known, ChainOff, OnlyChain, OnlyMoved;
    var g := Owner(c, e);
    if e.Group? then
      var c1 := if c.rqs[e.path].nrRunning != 0 then Enq(c, e, false) else c;
      PutOk(c, e, false, c1);
      var d := if g == [] then c1 else Restore(c1, Group(g));
      PutUpOk(c, e, c1, d);
      d
    else
      ChainOffUp(c, e);
      var d := if g == [] then c else Restore(c, Group(g));
      SkipOk(c, e, d);
      d
  }

  lemma ChainOffUp(c: Cpu, e: Entity)
    requires Local(c) && Known(c, e) && ChainOff(c, e)
    ensures Owner(c, e) != [] ==> Known(c, Group(Owner(c, e))) && ChainOff(c, Group(Owner(c, e)))
  {
    hide OnRq, Parent, Above;
    ChainUp(c, e);
  }

  lemma SkipOk(c: Cpu, e: Entity, d: Cpu)
    requires Local(c) && Known(c, e) && e.Task? && ChainOff(c, e)
    requires Owner(c, e) == [] ==> d == c
    requires Owner(c, e) != [] ==> OnlyChain(c, d, Group(Owner(c, e))) && ChainLinked(d, Group(Owner(c, e)))
    ensures OnlyChain(c, d, e) && ChainLinked(d, e) && !OnRq(d, e)
  {
    hide OnRq, Parent, Above, Linked, Local, Known;
    ChainUp(c, e);
  }

  // ----- whole operations

  /** `enqueue_rt_entity`. */
  function EnqueueEntity(c: Cpu, e: Entity, head: bool): Cpu
    requires Local(c) && Known(c, e)
  {
    var c1 := DeqStack(c, e);
    KnownFrame(c, c1);
    EnqUp(c1, e, head)
  }

  /** `dequeue_rt_entity`. */
  function DequeueEntity(c: Cpu, e: Entity): Cpu
    requires Local(c) && Known(c, e)
  {
    var c1 := DeqStack(c, e);
    KnownFrame(c, c1);
    Restore(c1, e)
  }

  lemma KnownFrame(c: Cpu, d: Cpu)
    requires SameTree(c, d)
    ensures forall e :: (Known(c, e) <==> Known(d, e)) && Owner(c, e) == Owner(d, e)
  {
  }

  /** Only groups above e, and e itself, may be out of place. */
  ghost predicate InvButChain(c: Cpu, e: Entity)
  {
    && Local(c)
    && forall p {:trigger Linked(c, p)} ::
      p in c.rqs && p != [] && !InChain(e, Owner(c, e), Group(p)) ==> Linked(c, p)
  }

  /** Off the chain nothing moved and, except for the chain's owners, nothing changed, so links are as before. */
  lemma OffChainLinked(c: Cpu, d: Cpu, e: Entity, p: Path)
    requires Known(c, e) && OnlyChain(c, d, e) && Local(d)
    requires p in c.rqs && p != [] && !InChain(e, Owner(c, e), Group(p)) && Linked(c, p)
    ensures Linked(d, p)
  {
    hide OnRq, Parent, RqOk, Holds;
    KnownFrame(c, d);
    assert d.rqs[p] == c.rqs[p];
  }

  lemma OnlyChainTrans(c: Cpu, c1: Cpu, d: Cpu, e: Entity)
    requires OnlyChain(c, c1, e) && OnlyChain(c1, d, e)
    ensures OnlyChain(c, d, e)
  {
    hide OnRq, Above, Parent;
  }

  /** Going out and back in along e's chain leaves every group linked as it should be. */
  lemma ChainRoundTrip(c: Cpu, c1: Cpu, d: Cpu, e: Entity)
    requires InvButChain(c, e) && Known(c, e) && OnlyChain(c, c1, e) && Local(c1)
    requires Local(d) && OnlyChain(c1, d, e) && ChainLinked(d, e)
    ensures Inv(d)
  {
    hide Local, Linked, Above, Parent, OnRq;
    KnownFrame(c, c1);
    forall p | p in d.rqs && p != []
      ensures Linked(d, p)
    {
      if !InChain(e, Owner(c, e), Group(p)) {
        OffChainLinked(c, c1, e, p);
        OffChainLinked(c1, d, e, p);
      }
    }
  }

  /** `enqueue_rt_entity` re-establishes the whole invariant, even if e's own chain was out of place. */
  lemma EnqueueEntityOk(c: Cpu, e: Entity, head: bool, d: Cpu)
    requires InvButChain(c, e) && Known(c, e) && d == EnqueueEntity(c, e, head)
    ensures Inv(d) && OnlyChain(c, d, e)
    ensures e.Task? ==> OnRq(d, e)
  {
    hide OnRq, Local, Known, Eligible, OnlyChain, ChainLinked, Inv;
    var c1 := DeqStack(c, e);
    OnlyChainTrans(c, c1, d, e);
    ChainRoundTrip(c, c1, d, e);
    KnownChain(c, c1, e);
    TaskEligible(c1, e);
  }

  lemma KnownChain(c: Cpu, d: Cpu, e: Entity)
    requires Known(c, e) && OnlyChain(c, d, e)
    ensures Known(d, e)
  {
    KnownFrame(c, d);
  }

  lemma TaskEligible(c: Cpu, e: Entity)
    requires Known(c, e)
    ensures e.Task? ==> Eligible(c, e)
  {
  }

  /** `dequeue_rt_entity` likewise; a task ends up off its queue. */
  lemma DequeueEntityOk(c: Cpu, e: Entity, d: Cpu)
    requires InvButChain(c, e) && Known(c, e) && d == DequeueEntity(c, e)
    ensures Inv(d) && OnlyChain(c, d, e)
    ensures e.Task? ==> !OnRq(d, e)
  {
    hide OnRq, Local, Known, Eligible, OnlyChain, ChainLinked, Inv;
    var c1 := DeqStack(c, e);
    OnlyChainTrans(c, c1, d, e);
    ChainRoundTrip(c, c1, d, e);
  }

  // ----- what happens to the task's own queue

  /** Enqueueing a task that is off the queues changes its own group's queue by exactly one insertion,
      at the head or the tail of the list of its priority. */
  lemma EnqueueTaskExact(c: Cpu, e: Entity, head: bool, d: Cpu)
    requires Inv(c) && Known(c, e) && e.Task? && !OnRq(c, e) && d == EnqueueEntity(c, e, head)
    ensures ArrayShape(c.rqs[Owner(c, e)]) && 0 <= AttrOf(c, e).prio < MAX_RT_PRIO
    ensures Owner(c, e) in d.rqs && d.rqs[Owner(c, e)] == Push(c.rqs[Owner(c, e)], e, AttrOf(c, e), head)
    ensures var was, now, p := c.rqs[Owner(c, e)].queue, d.rqs[Owner(c, e)].queue, AttrOf(c, e).prio;
            && |now| == |was|
            && now[p] == (if head then [e] + was[p] else was[p] + [e])
            && forall i :: 0 <= i < |was| && i != p ==> now[i] == was[i]
  {
    hide RqOk, Holds, Push, OnlyMoved;
    var g := Owner(c, e);
    var c1 := DeqStack(c, e);
    ArrayOk(c, g);
    OwnQueueOut(c, e);
    KnownFrame(c, c1);
    EligiblePrio(c, e);
    assert !OnRq(c1, e);
    var c2 := Enq(c1, e, head);
    PutOk(c1, e, head, c2);
    if g != [] {
      OwnerNotBelow(g);
      assert d == EnqUp(c2, Group(g), head);
    }
    PushPlaces(c.rqs[g], e, AttrOf(c, e), head);
  }

  /** Dequeueing a queued task changes its own group's queue by exactly its removal. */
  lemma DequeueTaskExact(c: Cpu, e: Entity, d: Cpu)
    requires Inv(c) && OnRq(c, e) && e.Task? && d == DequeueEntity(c, e)
    ensures ArrayShape(c.rqs[Owner(c, e)]) && 0 <= AttrOf(c, e).prio < MAX_RT_PRIO
    ensures Owner(c, e) in d.rqs && d.rqs[Owner(c, e)] == Pull(c.rqs[Owner(c, e)], e, AttrOf(c, e))
  {
    hide RqOk, Holds, Pull;
    var g := Owner(c, e);
    var c1 := DeqStack(c, e);
    OwnQueueOut(c, e);
    KnownFrame(c, c1);
    if g != [] {
      OwnerNotBelow(g);
      ChainOffUp(c1, e);
      assert d == Restore(c1, Group(g));
    }
  }

  /** Taking out the groups above leaves the entity's own queue alone. */
  lemma OwnQueueOut(c: Cpu, e: Entity)
    requires Local(c) && Known(c, e)
    ensures Owner(c, e) in DeqStack(c, e).rqs
    ensures !OnRq(c, e) ==> DeqStack(c, e).rqs[Owner(c, e)] == c.rqs[Owner(c, e)]
    ensures OnRq(c, e) ==> ArrayShape(c.rqs[Owner(c, e)]) && 0 <= AttrOf(c, e).prio < MAX_RT_PRIO
    ensures OnRq(c, e) && e.Task? ==>
      DeqStack(c, e).rqs[Owner(c, e)] == Pull(c.rqs[Owner(c, e)], e, AttrOf(c, e))
  {
    hide RqOk, Holds, Pull;
    var g := Owner(c, e);
    ArrayOk(c, g);
    var c1 := if g == [] then c else DeqStack(c, Group(g));
    if g != [] {
      OwnerNotBelow(g);
      KnownFrame(c, c1);
    }
    assert c1.rqs[g] == c.rqs[g];
    assert OnRq(c1, e) <==> OnRq(c, e);
    if OnRq(c, e) {
      UnlinkWhere(c.rqs[g], e, Attrs(c));
    }
  }
}
