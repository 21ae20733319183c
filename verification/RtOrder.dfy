/**
 The lists of the RT hierarchy exactly: which list of which queue every operation takes an entity from and at which end
 it puts it back, along the whole chain of groups; and the first-in-first-out order that follows for tasks.
 */
module RtOrder {
  import opened Basics
  import opened RtQueue
  import opened RtHierarchy
  import opened RtRuns
  import opened RtPick

  // ----- one queue

  /** The lists of b are those of a with x taken out and, if it is put back, at one end of the list of its priority. */
  ghost predicate Relisted(a: seq<seq<Entity>>, b: seq<seq<Entity>>, x: Entity, put: bool, prio: int, head: bool)
  {
    && |b| == |a|
    && forall i :: 0 <= i < |a| ==>
         var w := Without(a[i], x);
         b[i] == if !put || i != prio then w else if head then [x] + w else w + [x]
  }

  ghost predicate Absent(a: seq<seq<Entity>>, x: Entity)
  {
    forall i :: 0 <= i < |a| ==> x !in a[i]
  }

  lemma {:induction false} WithoutAbsent(q: seq<Entity>, x: Entity)
    requires x !in q
    ensures Without(q, x) == q
  {
    if q != [] {
      WithoutAbsent(q[1..], x);
    }
  }

  /** Nothing changes for an entity that was not there and is not put. */
  lemma RelistedNone(a: seq<seq<Entity>>, x: Entity, prio: int, head: bool)
    requires Absent(a, x)
    ensures Relisted(a, a, x, false, prio, head)
  {
    hide Without;
    forall i | 0 <= i < |a|
      ensures Without(a[i], x) == a[i]
    {
      WithoutAbsent(a[i], x);
    }
  }

  /** Taking out and then putting back is both at once. */
  lemma RelistedTwice(a: seq<seq<Entity>>, b: seq<seq<Entity>>, c: seq<seq<Entity>>, x: Entity, put: bool, prio: int,
                      head: bool)
    requires Relisted(a, b, x, false, 0, false) && Absent(b, x) && Relisted(b, c, x, put, prio, head)
    ensures Relisted(a, c, x, put, prio, head)
  {
    hide Without;
    forall i | 0 <= i < |a|
      ensures Without(b[i], x) == b[i]
    {
      WithoutAbsent(b[i], x);
    }
  }

  lemma AbsentIff(r: RtRq, x: Entity)
    ensures Absent(r.queue, x) <==> !Holds(r, x)
  {
  }

  /** `__enqueue_rt_entity` puts the entity at the head or the tail of the list of its priority and leaves every other
      list alone. */
  lemma PushExact(r: RtRq, e: Entity, a: Attr, head: bool)
    requires ArrayShape(r) && 0 <= a.prio < MAX_RT_PRIO && !Holds(r, e)
    ensures Relisted(r.queue, Push(r, e, a, head).queue, e, true, a.prio, head)
  {
    hide Without, Push;
    PushPlaces(r, e, a, head);
    forall i | 0 <= i < |r.queue|
      ensures Without(r.queue[i], e) == r.queue[i]
    {
      WithoutAbsent(r.queue[i], e);
    }
  }

  /** `__dequeue_rt_entity` takes it out of its list and leaves the order of all others. */
  lemma PullExact(r: RtRq, e: Entity, a: Attr)
    requires ArrayShape(r) && 0 <= a.prio < MAX_RT_PRIO
    ensures Relisted(r.queue, Pull(r, e, a).queue, e, false, a.prio, false)
  {
    hide Without, FirstBit;
  }

  /** `requeue_rt_entity` moves it to one end of the list of its priority. */
  lemma RequeueExact(r: RtRq, e: Entity, a: Attr, head: bool)
    requires ArrayShape(r) && 0 <= a.prio < MAX_RT_PRIO
    ensures Relisted(r.queue, Requeue(r, e, a, head).queue, e, true, a.prio, head)
  {
    hide Without;
  }

  // ----- the chain

  /** The entity of e's chain that goes on the queue of q, a group at or above e's owner. */
  function Via(e: Entity, owner: Path, q: Path): Entity
    requires Above(q, owner)
  {
    if q == owner then e else Group(owner[..|q| + 1])
  }

  lemma ViaUp(e: Entity, g: Path, q: Path)
    requires g != [] && Above(q, g) && q != g
    ensures Above(q, Parent(g)) && Via(e, g, q) == Via(Group(g), Parent(g), q)
  {
    AboveParent(q, g);
    var h := Parent(g);
    if q == h {
      assert g[..|q| + 1] == g;
    } else {
      assert h[..|q| + 1] == g[..|q| + 1];
    }
  }

  /** The lists of group q after an operation on e. */
  ghost predicate RelinkedAt(c: Cpu, d: Cpu, e: Entity, q: Path, head: bool)
    requires q in c.rqs && q in d.rqs && Above(q, Owner(c, e))
  {
    var x := Via(e, Owner(c, e), q);
    Relisted(c.rqs[q].queue, d.rqs[q].queue, x, OnRq(d, x), AttrOf(d, x).prio, head)
  }

  /** Along e's chain every entity has left its list and, if it is queued, is at one end of the list of the priority it
      has now; no other entity has moved within its list, and no other list has changed. */
  ghost predicate Relinked(c: Cpu, d: Cpu, e: Entity, head: bool)
  {
    && c.rqs.Keys == d.rqs.Keys
    && (forall q :: q in c.rqs && Above(q, Owner(c, e)) ==> RelinkedAt(c, d, e, q, head))
    && (forall q :: q in c.rqs && !Above(q, Owner(c, e)) ==> d.rqs[q].queue == c.rqs[q].queue)
  }

  // ----- out

  lemma TakeOutLists(c: Cpu, e: Entity)
    requires Local(c) && Known(c, e)
    ensures Owner(c, e) in c.rqs && TakeOut(c, e).rqs.Keys == c.rqs.Keys
    ensures Relisted(c.rqs[Owner(c, e)].queue, TakeOut(c, e).rqs[Owner(c, e)].queue, e, false, 0, false)
    ensures forall q :: q in c.rqs && q != Owner(c, e) ==> TakeOut(c, e).rqs[q] == c.rqs[q]
  {
    hide RqOk, Pull, Holds, Relisted, AttrOf;
    var g := Owner(c, e);
    ArrayOk(c, g);
    if OnRq(c, e) {
      UnlinkWhere(c.rqs[g], e, Attrs(c));
      PullExact(c.rqs[g], e, AttrOf(c, e));
      AnyPrio(c.rqs[g].queue, Pull(c.rqs[g], e, AttrOf(c, e)).queue, e, AttrOf(c, e).prio);
    } else {
      AbsentIff(c.rqs[g], e);
      RelistedNone(c.rqs[g].queue, e, 0, false);
    }
  }

  lemma AnyPrio(a: seq<seq<Entity>>, b: seq<seq<Entity>>, x: Entity, prio: int)
    requires Relisted(a, b, x, false, prio, false)
    ensures Relisted(a, b, x, false, 0, false)
  {
    hide Without;
  }

  lemma {:induction false} DeqStackLists(c: Cpu, e: Entity, q: Path)
    requires Local(c) && Known(c, e) && q in c.rqs && Above(q, Owner(c, e))
    ensures q in DeqStack(c, e).rqs
    ensures Relisted(c.rqs[q].queue, DeqStack(c, e).rqs[q].queue, Via(e, Owner(c, e), q), false, 0, false)
    decreases |Owner(c, e)|
  {
    hide RqOk, Holds, Relisted, AttrOf, TakeOut, Via, Above, Parent, Linked, OnRq;
    var g := Owner(c, e);
    if g == [] {
      AboveParent(q, g);
      TakeOutLists(c, e);
      ViaOwn(e, g);
    } else {
      GroupKnown(c, g);
      ParentShorter(g);
      var c1 := DeqStack(c, Group(g));
      KnownFrame(c, c1);
      TakeOutLists(c1, e);
      OwnerNotBelow(g);
      if q == g {
        ViaOwn(e, g);
      } else {
        ViaUp(e, g, q);
        DeqStackLists(c, Group(g), q);
      }
    }
  }

  lemma ViaOwn(e: Entity, g: Path)
    ensures Above(g, g) && Via(e, g, g) == e
  {
  }

  // ----- in

  lemma EnqLists(c: Cpu, e: Entity, head: bool, d: Cpu)
    requires Local(c) && Known(c, e) && !OnRq(c, e) && d == Enq(c, e, head)
    ensures Owner(c, e) in d.rqs
    ensures Relisted(c.rqs[Owner(c, e)].queue, d.rqs[Owner(c, e)].queue, e, Eligible(c, e), AttrOf(c, e).prio, head)
    ensures forall q :: q in c.rqs && q != Owner(c, e) ==> q in d.rqs && d.rqs[q] == c.rqs[q]
  {
    hide RqOk, Push, Holds, Relisted, AttrOf, Eligible;
    var g := Owner(c, e);
    ArrayOk(c, g);
    if Eligible(c, e) {
      EligiblePrio(c, e);
      PushExact(c.rqs[g], e, AttrOf(c, e), head);
    } else {
      AbsentIff(c.rqs[g], e);
      RelistedNone(c.rqs[g].queue, e, AttrOf(c, e).prio, head);
    }
  }

  /** What an entity looks like from above does not change while only its chain above it does. */
  lemma AttrAbove(c: Cpu, d: Cpu, e: Entity)
    requires Known(c, e) && OnlyChain(c, d, e)
    ensures AttrOf(d, e) == AttrOf(c, e)
  {
    hide OnRq, Above, Parent;
    if e.Group? {
      OwnerNotBelow(e.path);
    }
  }

  lemma {:induction false} EnqUpLists(c: Cpu, e: Entity, head: bool, q: Path, d: Cpu)
    requires Local(c) && Known(c, e) && ChainOff(c, e) && q in c.rqs && Above(q, Owner(c, e))
    requires d == EnqUp(c, e, head)
    ensures q in d.rqs && RelinkedAt(c, d, e, q, head)
    decreases |Owner(c, e)|
  {
    hide RqOk, Holds, Relisted, AttrOf, Enq, Via, Above, Parent, OnRq, Eligible, ChainLinked, Linked, InChain;
    var g := Owner(c, e);
    var c1 := Enq(c, e, head);
    NotQueued(c, e);
    EnqLists(c, e, head, c1);
    PutOk(c, e, head, c1);
    AttrAbove(c, d, e);
    ViaOwn(e, g);
    if g == [] {
      AboveParent(q, g);
    } else {
      OwnerNotBelow(g);
      ParentShorter(g);
      assert d == EnqUp(c1, Group(g), head);
      if q != g {
        ViaUp(e, g, q);
        EnqUpLists(c1, Group(g), head, q, d);
      }
    }
  }

  lemma NotQueued(c: Cpu, e: Entity)
    requires ChainOff(c, e)
    ensures !OnRq(c, e)
  {
    assert InChain(e, Owner(c, e), e);
  }

  // ----- out and in

  /** Both halves of an operation together, on one queue. */
  lemma OutAndInAt(c: Cpu, c1: Cpu, d: Cpu, e: Entity, q: Path, head: bool)
    requires Local(c) && Known(c, e) && c1 == DeqStack(c, e) && Owner(c1, e) == Owner(c, e)
    requires q in c.rqs && Above(q, Owner(c, e)) && q in c1.rqs && q in d.rqs && RelinkedAt(c1, d, e, q, head)
    ensures RelinkedAt(c, d, e, q, head)
  {
    hide Relisted, AttrOf, OnRq, Above, Parent, Local, Via, DeqStack, Known, Owner;
    var x := Via(e, Owner(c, e), q);
    DeqStackLists(c, e, q);
    OffAfter(c, e, c1);
    ViaOff(c1, e, q);
    AbsentIff(c1.rqs[q], x);
    RelistedTwice(c.rqs[q].queue, c1.rqs[q].queue, d.rqs[q].queue, x, OnRq(d, x), AttrOf(d, x).prio, head);
  }

  lemma OffAfter(c: Cpu, e: Entity, c1: Cpu)
    requires Local(c) && Known(c, e) && c1 == DeqStack(c, e)
    ensures Local(c1) && Known(c1, e) && ChainOff(c1, e)
  {
    hide Local, ChainOff;
    KnownFrame(c, c1);
  }

  lemma OutAndIn(c: Cpu, c1: Cpu, d: Cpu, e: Entity, head: bool)
    requires Local(c) && Known(c, e) && c1 == DeqStack(c, e) && OnlyChain(c1, d, e)
    requires forall q :: q in c.rqs && Above(q, Owner(c, e)) ==>
      q in c1.rqs && q in d.rqs && RelinkedAt(c1, d, e, q, head)
    ensures Relinked(c, d, e, head)
  {
    hide RelinkedAt, OnRq, Above, Parent, Local, Known, ChainOff;
    KnownFrame(c, c1);
    forall q | q in c.rqs && Above(q, Owner(c, e))
      ensures RelinkedAt(c, d, e, q, head)
    {
      OutAndInAt(c, c1, d, e, q, head);
    }
  }

  /** With the chain off, no entity of it is held. */
  lemma ViaOff(c: Cpu, e: Entity, q: Path)
    requires Local(c) && Known(c, e) && ChainOff(c, e) && q in c.rqs && Above(q, Owner(c, e))
    ensures !Holds(c.rqs[q], Via(e, Owner(c, e), q))
  {
    hide RqOk, Holds, Parent;
    var g := Owner(c, e);
    var x := Via(e, g, q);
    if q != g {
      assert x.path <= g;
    }
    assert InChain(e, g, x);
    assert Holds(c.rqs[q], x) ==> Known(c, x) && Owner(c, x) == q;
  }

  /** `enqueue_rt_entity` exactly: every entity of the chain goes to the end asked for of the list of its priority. */
  lemma EnqueueRelinks(c: Cpu, e: Entity, head: bool, d: Cpu)
    requires Local(c) && Known(c, e) && d == EnqueueEntity(c, e, head)
    ensures Relinked(c, d, e, head)
  {
    hide Relisted, AttrOf, OnRq, Above, Parent, RqOk, Linked, Holds, Via, InChain, ChainLinked, RelinkedAt, Relinked;
    var c1 := DeqStack(c, e);
    KnownFrame(c, c1);
    forall q | q in c.rqs && Above(q, Owner(c, e))
      ensures q in c1.rqs && q in d.rqs && RelinkedAt(c1, d, e, q, head)
    {
      EnqUpLists(c1, e, head, q, d);
    }
    OutAndIn(c, c1, d, e, head);
  }

  /** `dequeue_rt_entity` exactly: the groups above go to the tails of the lists of the priorities they have now. */
  lemma DequeueRelinks(c: Cpu, e: Entity, d: Cpu)
    requires Local(c) && Known(c, e) && d == DequeueEntity(c, e)
    ensures Relinked(c, d, e, false)
  {
    hide Relisted, AttrOf, OnRq, Above, Parent, RqOk, Linked, Holds, Via, InChain, ChainLinked, RelinkedAt, Relinked;
    var c1 := DeqStack(c, e);
    KnownFrame(c, c1);
    forall q | q in c.rqs && Above(q, Owner(c, e))
      ensures q in c1.rqs && q in d.rqs && RelinkedAt(c1, d, e, q, false)
    {
      RestoreLists(c1, e, q, d);
    }
    OutAndIn(c, c1, d, e, false);
  }

  lemma RestoreLists(c: Cpu, e: Entity, q: Path, d: Cpu)
    requires Local(c) && Known(c, e) && ChainOff(c, e) && q in c.rqs && Above(q, Owner(c, e))
    requires d == Restore(c, e)
    ensures q in d.rqs && RelinkedAt(c, d, e, q, false)
  {
    hide Relisted, Above, Parent, RqOk, Linked, Holds, InChain, ChainLinked, Via, AttrOf;
    var g := Owner(c, e);
    if e.Group? {
      EnqUpLists(c, e, false, q, d);
    } else {
      ChainOffUp(c, e);
      ViaOwn(e, g);
      if g == [] {
        AboveParent(q, g);
      } else {
        OwnerNotBelow(g);
      }
      if q == g {
        NotQueued(c, e);
        AbsentIff(c.rqs[g], e);
        RelistedNone(c.rqs[g].queue, e, AttrOf(d, e).prio, false);
      } else {
        ViaUp(e, g, q);
        EnqUpLists(c, Group(g), false, q, d);
      }
    }
  }

  // ----- requeueing

  lemma RequeueOneLists(c: Cpu, e: Entity, head: bool, d: Cpu)
    requires Local(c) && Known(c, e) && d == RequeueOne(c, e, head)
    ensures Owner(c, e) in d.rqs
    ensures Relisted(c.rqs[Owner(c, e)].queue, d.rqs[Owner(c, e)].queue, e, OnRq(c, e), AttrOf(c, e).prio, head)
    ensures forall q :: q in c.rqs && q != Owner(c, e) ==> q in d.rqs && d.rqs[q] == c.rqs[q]
  {
    hide RqOk, Requeue, Holds, Relisted, AttrOf;
    var g := Owner(c, e);
    ArrayOk(c, g);
    if OnRq(c, e) {
      UnlinkWhere(c.rqs[g], e, Attrs(c));
      RequeueExact(c.rqs[g], e, AttrOf(c, e), head);
    } else {
      AbsentIff(c.rqs[g], e);
      RelistedNone(c.rqs[g].queue, e, AttrOf(c, e).prio, head);
    }
  }

  /** Only queues along the chain change. */
  lemma {:induction false} RequeueFrame(c: Cpu, e: Entity, head: bool, q: Path)
    requires Local(c) && Known(c, e) && q in c.rqs && !Above(q, Owner(c, e))
    ensures q in RequeueUp(c, e, head).rqs && RequeueUp(c, e, head).rqs[q] == c.rqs[q]
    decreases |Owner(c, e)|
  {
    hide RqOk, Holds, RequeueOne, Above, Parent, Relisted, Linked, OnRq, AttrOf;
    var g := Owner(c, e);
    var c1 := RequeueOne(c, e, head);
    RequeueOneOk(c, e, head, c1);
    RequeueOneLists(c, e, head, c1);
    AboveParent(q, g);
    ViaOwn(e, g);
    if g != [] {
      ParentShorter(g);
      RequeueFrame(c1, Group(g), head, q);
    }
  }

  lemma ShuffledView(c: Cpu, d: Cpu, x: Entity)
    requires Shuffled(c, d)
    ensures (OnRq(d, x) <==> OnRq(c, x)) && AttrOf(d, x) == AttrOf(c, x)
  {
    hide OnRq;
  }

  lemma {:induction false} RequeueUpLists(c: Cpu, e: Entity, head: bool, q: Path, d: Cpu)
    requires Local(c) && Known(c, e) && q in c.rqs && Above(q, Owner(c, e)) && d == RequeueUp(c, e, head)
    ensures q in d.rqs && RelinkedAt(c, d, e, q, head)
    decreases |Owner(c, e)|
  {
    hide RqOk, Holds, RequeueOne, Above, Parent, Relisted, Linked, OnRq, AttrOf, Via, Shuffled;
    var g := Owner(c, e);
    var c1 := RequeueOne(c, e, head);
    RequeueOneOk(c, e, head, c1);
    RequeueOneLists(c, e, head, c1);
    ShuffledView(c, d, e);
    ViaOwn(e, g);
    if g == [] {
      AboveParent(q, g);
    } else {
      OwnerNotBelow(g);
      ParentShorter(g);
      if q == g {
        RequeueFrame(c1, Group(g), head, q);
      } else {
        ViaUp(e, g, q);
        RequeueUpLists(c1, Group(g), head, q, d);
      }
    }
  }

  /** `requeue_task_rt` exactly: the task and every queued group above it go to the end asked for of their lists. */
  lemma RequeueRelinks(c: Cpu, e: Entity, head: bool, d: Cpu)
    requires Local(c) && Known(c, e) && d == RequeueUp(c, e, head)
    ensures Relinked(c, d, e, head)
  {
    hide RelinkedAt, OnRq, Above, Parent, Local, Known, RequeueUp;
    RequeueShuffles(c, e, head);
    forall q | q in c.rqs
      ensures Above(q, Owner(c, e)) ==> RelinkedAt(c, d, e, q, head)
      ensures !Above(q, Owner(c, e)) ==> d.rqs[q] == c.rqs[q]
    {
      if Above(q, Owner(c, e)) {
        RequeueUpLists(c, e, head, q, d);
      } else {
        RequeueFrame(c, e, head, q);
      }
    }
  }

  lemma RequeueShuffles(c: Cpu, e: Entity, head: bool)
    requires Local(c) && Known(c, e)
    ensures Shuffled(c, RequeueUp(c, e, head))
  {
    hide Shuffled, Local, Known;
  }

  // ----- every step exactly

  /** Same tasks, groups and throttle flags, that of g aside. */
  ghost predicate SameBut(c: Cpu, d: Cpu, g: Path)
  {
    && d.tasks == c.tasks && d.rqs.Keys == c.rqs.Keys
    && forall p :: p in c.rqs && p != g ==> d.rqs[p].throttled == c.rqs[p].throttled
  }

  /** What each step does, to the last list. */
  ghost predicate Done(c: Cpu, step: Step, d: Cpu)
  {
    match step
    case Enqueue(t, head) => SameTree(c, d) && Relinked(c, d, Task(t), head) && OnRq(d, Task(t))
    case Dequeue(t) => SameTree(c, d) && Relinked(c, d, Task(t), false) && !OnRq(d, Task(t))
    case RequeueTask(t, head) =>
      SameTree(c, d) && Relinked(c, d, Task(t), head) && forall x :: OnRq(d, x) <==> OnRq(c, x)
    case ThrottleGroup(g) =>
      && g in c.rqs
      && if g != [] && OnRq(c, Group(g)) && c.rqs[g].nrBoosted == 0
         then SameBut(c, d, g) && d.rqs[g] == c.rqs[g].(throttled := true) && Relinked(c, d, Group(g), false)
           && !OnRq(d, Group(g))
         else d == c.(rqs := c.rqs[g := c.rqs[g].(throttled := true)])
    case Replenish(g) =>
      && g in c.rqs
      && if g != [] && !OnRq(c, Group(g)) && c.rqs[g].nrRunning != 0
         then SameBut(c, d, g) && d.rqs[g] == c.rqs[g].(throttled := false) && Relinked(c, d, Group(g), false)
           && OnRq(d, Group(g))
         else d == c.(rqs := c.rqs[g := c.rqs[g].(throttled := false)])
    case SetTask(t, info) =>
      && d.rqs == c.rqs && d.tasks.Keys == c.tasks.Keys + {t} && d.tasks[t] == info
      && forall u :: u in c.tasks && u != t ==> d.tasks[u] == c.tasks[u]
    case CreateGroup(g) =>
      && d.tasks == c.tasks && d.rqs.Keys == c.rqs.Keys + {g}
      && (forall p :: p in c.rqs && p != g ==> d.rqs[p] == c.rqs[p])
      && (forall x :: !Holds(d.rqs[g], x)) && !d.rqs[g].throttled && d.rqs[g].nrRunning == 0
  }

  /** Throttling takes a queued group that has no boosted task off its parent, and the tail of each list above is where
      the groups above go; in any other case only the flag is set. */
  lemma ThrottleExact(c: Cpu, g: Path, d: Cpu)
    requires Inv(c) && g in c.rqs && d == Throttle(c, g)
    ensures Done(c, ThrottleGroup(g), d)
  {
    hide RqOk, Holds, Above, Parent, DequeueEntity, OnRq, Relinked, Linked;
    var c1 := SetFlag(c, g, true);
    FlagOk(c, g, true, c1);
    if g != [] && OnRq(c, Group(g)) && c.rqs[g].nrBoosted == 0 {
      FlagInv(c, g, true, c1);
      DequeueEntityOk(c1, Group(g), d);
      DequeueRelinks(c1, Group(g), d);
      FlagRelinks(c, c1, d, g, false);
      KeepsOwn(c1, d, g);
      OffWhenThrottled(c1, d, g);
    }
  }

  lemma OffWhenThrottled(c1: Cpu, d: Cpu, g: Path)
    requires Inv(d) && g in d.rqs && g != [] && d.rqs[g].throttled && d.rqs[g].nrBoosted == 0
    ensures !OnRq(d, Group(g))
  {
    hide RqOk, Holds, Parent, OnRq;
    assert Linked(d, g);
  }

  /** What changes above a group leaves its own queue alone. */
  lemma KeepsOwn(c: Cpu, d: Cpu, g: Path)
    requires g != [] && g in c.rqs && OnlyChain(c, d, Group(g))
    ensures g in d.rqs && d.rqs[g] == c.rqs[g]
  {
    hide OnRq, Above, Parent;
    OwnerNotBelow(g);
  }

  /** A flag is in no list. */
  lemma FlagRelinks(c: Cpu, c1: Cpu, d: Cpu, g: Path, head: bool)
    requires g in c.rqs && g != [] && c1.tasks == c.tasks && c1.rqs.Keys == c.rqs.Keys
    requires forall p :: p in c.rqs ==> c1.rqs[p].queue == c.rqs[p].queue
    requires Relinked(c1, d, Group(g), head)
    ensures Relinked(c, d, Group(g), head)
  {
    hide OnRq, Above, Parent, Relisted, AttrOf, Via;
    forall q | q in c.rqs && Above(q, Owner(c, Group(g)))
      ensures RelinkedAt(c, d, Group(g), q, head)
    {
      assert RelinkedAt(c1, d, Group(g), q, head);
    }
  }

  /** The timer's release clears the flag, and a group that was off its parent with something to run is back, at the
      tail. */
  lemma UnthrottleExact(c: Cpu, g: Path, d: Cpu)
    requires Inv(c) && g in c.rqs && d == Unthrottle(c, g)
    ensures Done(c, Replenish(g), d)
  {
    hide RqOk, Holds, Above, Parent, EnqueueEntity, OnRq, Relinked, Linked;
    var c1 := SetFlag(c, g, false);
    FlagOk(c, g, false, c1);
    if g != [] && !OnRq(c, Group(g)) && c.rqs[g].nrRunning != 0 {
      FlagInv(c, g, false, c1);
      GroupKnown(c1, g);
      EnqueueEntityOk(c1, Group(g), false, d);
      EnqueueRelinks(c1, Group(g), false, d);
      FlagRelinks(c, c1, d, g, false);
      KeepsOwn(c1, d, g);
      OnWhenReleased(d, g);
    }
  }

  lemma OnWhenReleased(d: Cpu, g: Path)
    requires Inv(d) && g in d.rqs && g != [] && !d.rqs[g].throttled && d.rqs[g].nrRunning != 0
    ensures OnRq(d, Group(g))
  {
    hide RqOk, Holds, Parent, OnRq;
    GroupKnown(d, g);
    assert Linked(d, g);
  }

  /** Every step, exactly. */
  lemma ApplyExact(c: Cpu, step: Step, d: Cpu)
    requires Inv(c) && Enabled(c, step) && d == Apply(c, step)
    ensures Done(c, step, d)
  {
    hide RqOk, Holds, Above, Parent, OnRq, Relinked, Linked, EnqueueEntity, DequeueEntity, RequeueUp, Throttle,
      Unthrottle, EmptyRq, Shuffled;
    match step
    case Enqueue(t, head) =>
      TasksKnown(c);
      InvImpliesButChain(c, Task(t));
      EnqueueEntityOk(c, Task(t), head, d);
      EnqueueRelinks(c, Task(t), head, d);
    case Dequeue(t) =>
      TasksKnown(c);
      InvImpliesButChain(c, Task(t));
      DequeueEntityOk(c, Task(t), d);
      DequeueRelinks(c, Task(t), d);
    case RequeueTask(t, head) =>
      TasksKnown(c);
      RequeueShuffles(c, Task(t), head);
      ShuffledSame(c, d);
      RequeueRelinks(c, Task(t), head, d);
    case ThrottleGroup(g) => ThrottleExact(c, g, d);
    case Replenish(g) => UnthrottleExact(c, g, d);
    case SetTask(t, info) =>
    case CreateGroup(g) =>
      EmptyRqOk(Attrs(c));
      EmptyFlag();
  }

  lemma EmptyFlag()
    ensures !EmptyRq().throttled
  {
  }

  lemma ShuffledSame(c: Cpu, d: Cpu)
    requires Shuffled(c, d)
    ensures SameTree(c, d) && forall x :: OnRq(d, x) <==> OnRq(c, x)
  {
    hide OnRq;
  }

  // ----- first in, first out

  ghost predicate Ahead(q: seq<Entity>, x: Entity, y: Entity)
  {
    exists i, j :: 0 <= i < j < |q| && q[i] == x && q[j] == y
  }

  /** What is ahead in a list is ahead in a longer one. */
  lemma AheadLonger(w: seq<Entity>, e: Entity, x: Entity, y: Entity)
    requires Ahead(w, x, y)
    ensures Ahead([e] + w, x, y) && Ahead(w + [e], x, y)
  {
    var k, l :| 0 <= k < l < |w| && w[k] == x && w[l] == y;
    var a, b := [e] + w, w + [e];
    assert a[k + 1] == x && a[l + 1] == y;
    assert b[k] == x && b[l] == y;
  }

  lemma AheadFirst(w: seq<Entity>, x: Entity, y: Entity)
    requires y in w
    ensures Ahead([x] + w, x, y)
  {
    var l :| 0 <= l < |w| && w[l] == y;
    var a := [x] + w;
    assert a[0] == x && a[l + 1] == y;
  }

  lemma AheadRest(q: seq<Entity>, x: Entity, y: Entity)
    requires Ahead(q, x, y)
    ensures y in q[1..] && (q[0] == x || Ahead(q[1..], x, y))
  {
    var i, j :| 0 <= i < j < |q| && q[i] == x && q[j] == y;
    var rest := q[1..];
    assert rest[j - 1] == y;
    if i > 0 {
      assert rest[i - 1] == x;
    }
  }

  lemma AheadSome(q: seq<Entity>, x: Entity, y: Entity)
    requires Ahead(q, x, y)
    ensures q != []
  {
  }

  lemma {:induction false} WithoutAhead(q: seq<Entity>, e: Entity, x: Entity, y: Entity)
    requires Ahead(q, x, y) && x != e && y != e
    ensures Ahead(Without(q, e), x, y)
    decreases |q|
  {
    hide Ahead;
    AheadSome(q, x, y);
    AheadRest(q, x, y);
    if q[0] != e {
      if q[0] == x {
        WithoutStill(q[1..], e, y);
        AheadFirst(Without(q[1..], e), x, y);
      } else {
        WithoutAhead(q[1..], e, x, y);
        AheadLonger(Without(q[1..], e), q[0], x, y);
      }
    }
  }

  lemma {:induction false} WithoutStill(q: seq<Entity>, e: Entity, x: Entity)
    requires x in q && x != e
    ensures x in Without(q, e)
  {
    if q[0] != e && q[0] != x {
      WithoutStill(q[1..], e, x);
    }
  }

  /** Moving one entity leaves the order of the others. */
  lemma RelistedAhead(a: seq<seq<Entity>>, b: seq<seq<Entity>>, e: Entity, put: bool, prio: int, head: bool, i: nat,
                      x: Entity, y: Entity)
    requires Relisted(a, b, e, put, prio, head) && i < |a| && Ahead(a[i], x, y) && x != e && y != e
    ensures Ahead(b[i], x, y)
  {
    hide Without, Ahead;
    WithoutAhead(a[i], e, x, y);
    AheadLonger(Without(a[i], e), e, x, y);
  }

  /** Tasks t and u are of one group and priority, and queued with t ahead. */
  ghost predicate Before(c: Cpu, t: nat, u: nat)
  {
    && SamePlace(c, t, u)
    && var task := c.tasks[t];
       task.group in c.rqs && task.prio < |c.rqs[task.group].queue|
       && Ahead(c.rqs[task.group].queue[task.prio], Task(t), Task(u))
  }

  ghost predicate SamePlace(c: Cpu, t: nat, u: nat)
  {
    t in c.tasks && u in c.tasks && c.tasks[t].group == c.tasks[u].group && c.tasks[t].prio == c.tasks[u].prio
  }

  /** The steps that are about task t itself. */
  predicate Moves(step: Step, t: nat)
  {
    (step.Enqueue? || step.Dequeue? || step.RequeueTask? || step.SetTask?) && step.t == t
  }

  predicate LeftAlone(steps: seq<Step>, t: nat)
  {
    forall i :: 0 <= i < |steps| ==> !Moves(steps[i], t)
  }

  lemma RelinkedBefore(c: Cpu, d: Cpu, e: Entity, head: bool, t: nat, u: nat)
    requires Relinked(c, d, e, head) && d.tasks == c.tasks && Before(c, t, u) && e != Task(t) && e != Task(u)
    ensures Before(d, t, u)
  {
    hide Relisted, AttrOf, OnRq, Above, Ahead;
    var q := c.tasks[t].group;
    if Above(q, Owner(c, e)) {
      assert RelinkedAt(c, d, e, q, head);
      var x := Via(e, Owner(c, e), q);
      SameLength(c.rqs[q].queue, d.rqs[q].queue, x, OnRq(d, x), AttrOf(d, x).prio, head);
      RelistedAhead(c.rqs[q].queue, d.rqs[q].queue, x, OnRq(d, x), AttrOf(d, x).prio, head, c.tasks[t].prio,
        Task(t), Task(u));
    }
  }

  lemma SameLength(a: seq<seq<Entity>>, b: seq<seq<Entity>>, x: Entity, put: bool, prio: int, head: bool)
    requires Relisted(a, b, x, put, prio, head)
    ensures |a| == |b|
  {
  }

  /** No step that is about other tasks or about groups changes the order of two queued tasks. */
  lemma StepBefore(c: Cpu, step: Step, d: Cpu, t: nat, u: nat)
    requires Inv(c) && Enabled(c, step) && d == Apply(c, step)
    requires Before(c, t, u) && !Moves(step, t) && !Moves(step, u)
    ensures Before(d, t, u)
  {
    hide Inv, Apply, Relinked, Ahead, OnRq, Enabled, Holds;
    ApplyExact(c, step, d);
    match step
    case Enqueue(x, head) => RelinkedBefore(c, d, Task(x), head, t, u);
    case Dequeue(x) => RelinkedBefore(c, d, Task(x), false, t, u);
    case RequeueTask(x, head) => RelinkedBefore(c, d, Task(x), head, t, u);
    case ThrottleGroup(g) =>
      if g != [] && OnRq(c, Group(g)) && c.rqs[g].nrBoosted == 0 {
        RelinkedBefore(c, d, Group(g), false, t, u);
      }
    case Replenish(g) =>
      if g != [] && !OnRq(c, Group(g)) && c.rqs[g].nrRunning != 0 {
        RelinkedBefore(c, d, Group(g), false, t, u);
      }
    case SetTask(x, info) =>
    case CreateGroup(g) => NewGroup(c, g);
  }

  lemma NewGroup(c: Cpu, g: Path)
    requires Enabled(c, CreateGroup(g))
    ensures g !in c.rqs
  {
  }

  /** A step that is not about t leaves it where it is, queued or not. */
  lemma StepStays(c: Cpu, step: Step, d: Cpu, t: nat)
    requires Inv(c) && Enabled(c, step) && d == Apply(c, step) && !Moves(step, t) && t in c.tasks
    ensures t in d.tasks && d.tasks[t] == c.tasks[t] && (OnRq(d, Task(t)) <==> OnRq(c, Task(t)))
  {
    hide RqOk, Holds, Above, Parent, OnRq, Linked, EnqueueEntity, DequeueEntity, RequeueUp, EmptyRq, Shuffled;
    match step
    case Enqueue(x, head) =>
      TasksKnown(c);
      InvImpliesButChain(c, Task(x));
      EnqueueEntityOk(c, Task(x), head, d);
    case Dequeue(x) =>
      TasksKnown(c);
      InvImpliesButChain(c, Task(x));
      DequeueEntityOk(c, Task(x), d);
    case RequeueTask(x, head) =>
      TasksKnown(c);
      RequeueShuffles(c, Task(x), head);
      ShuffledSame(c, d);
    case ThrottleGroup(g) => ThrottleStays(c, g, d, t);
    case Replenish(g) => UnthrottleStays(c, g, d, t);
    case SetTask(x, info) => SetTaskLocal(c, x, info, d);
    case CreateGroup(g) => CreateStays(c, g, d, t);
  }

  lemma ThrottleStays(c: Cpu, g: Path, d: Cpu, t: nat)
    requires Inv(c) && g in c.rqs && d == Throttle(c, g) && t in c.tasks
    ensures d.tasks == c.tasks && (OnRq(d, Task(t)) <==> OnRq(c, Task(t)))
  {
    hide RqOk, Holds, Above, Parent, OnRq, Linked, DequeueEntity;
    var c1 := SetFlag(c, g, true);
    FlagOk(c, g, true, c1);
    if d != c1 {
      FlagInv(c, g, true, c1);
      DequeueEntityOk(c1, Group(g), d);
    }
  }

  lemma UnthrottleStays(c: Cpu, g: Path, d: Cpu, t: nat)
    requires Inv(c) && g in c.rqs && d == Unthrottle(c, g) && t in c.tasks
    ensures d.tasks == c.tasks && (OnRq(d, Task(t)) <==> OnRq(c, Task(t)))
  {
    hide RqOk, Holds, Above, Parent, OnRq, Linked, EnqueueEntity;
    var c1 := SetFlag(c, g, false);
    FlagOk(c, g, false, c1);
    if d != c1 {
      FlagInv(c, g, false, c1);
      EnqueueEntityOk(c1, Group(g), false, d);
    }
  }

  lemma CreateStays(c: Cpu, g: Path, d: Cpu, t: nat)
    requires Inv(c) && Enabled(c, CreateGroup(g)) && d == Apply(c, CreateGroup(g)) && t in c.tasks
    ensures d.tasks == c.tasks && (OnRq(d, Task(t)) <==> OnRq(c, Task(t)))
  {
    hide RqOk, Holds, Parent, EmptyRq, Linked;
    TasksKnown(c);
  }

  lemma {:induction false} RunBefore(c: Cpu, steps: seq<Step>, t: nat, u: nat)
    requires Inv(c) && Before(c, t, u) && LeftAlone(steps, t) && LeftAlone(steps, u)
    ensures Before(Execute(c, steps), t, u)
    decreases |steps|
  {
    hide Inv, Apply, Enabled, Before, Moves;
    if steps != [] {
      if Enabled(c, steps[0]) {
        ApplyOk(c, steps[0]);
        StepBefore(c, steps[0], Apply(c, steps[0]), t, u);
        RunBefore(Apply(c, steps[0]), steps[1..], t, u);
      } else {
        RunBefore(c, steps[1..], t, u);
      }
    }
  }

  lemma {:induction false} RunStays(c: Cpu, steps: seq<Step>, t: nat)
    requires Inv(c) && LeftAlone(steps, t) && t in c.tasks
    ensures var d := Execute(c, steps);
            t in d.tasks && d.tasks[t] == c.tasks[t] && (OnRq(d, Task(t)) <==> OnRq(c, Task(t)))
    decreases |steps|
  {
    hide Inv, Apply, Enabled, OnRq, Moves;
    if steps != [] {
      if Enabled(c, steps[0]) {
        ApplyOk(c, steps[0]);
        StepStays(c, steps[0], Apply(c, steps[0]), t);
        RunStays(Apply(c, steps[0]), steps[1..], t);
      } else {
        RunStays(c, steps[1..], t);
      }
    }
  }

  /** A task queued at the tail is behind every task of its group and priority that is queued. */
  lemma JoinsBehind(c: Cpu, t: nat, u: nat, d: Cpu)
    requires Inv(c) && SamePlace(c, t, u) && t != u && OnRq(c, Task(t)) && d == Apply(c, Enqueue(u, false))
    ensures Before(d, t, u)
  {
    hide RqOk, Above, Parent, Linked, Relisted, EnqueueEntity, Holds;
    ApplyExact(c, Enqueue(u, false), d);
    StepStays(c, Enqueue(u, false), d, t);
    InvAfter(c, Enqueue(u, false), d);
    var q, p := c.tasks[t].group, c.tasks[t].prio;
    ViaOwn(Task(u), q);
    assert RelinkedAt(c, d, Task(u), q, false);
    TasksKnown(c);
    ArrayOk(c, q);
    HoldsWhere(c.rqs[q], Task(t), Attrs(c));
    Tail(c.rqs[q].queue, d.rqs[q].queue, Task(t), Task(u), p);
  }

  lemma InvAfter(c: Cpu, step: Step, d: Cpu)
    requires Inv(c) && Enabled(c, step) && d == Apply(c, step)
    ensures Inv(d)
  {
    hide Inv, Apply, Enabled;
    ApplyOk(c, step);
  }

  lemma Tail(a: seq<seq<Entity>>, b: seq<seq<Entity>>, x: Entity, y: Entity, p: nat)
    requires Relisted(a, b, y, true, p, false) && p < |a| && x in a[p] && x != y
    ensures |b| == |a| && Ahead(b[p], x, y)
  {
    WithoutStill(a[p], y, x);
    var w := Without(a[p], y);
    hide Without;
    var i :| 0 <= i < |w| && w[i] == x;
    assert b[p][i] == x && b[p][|w|] == y;
  }

  /** First in, first out: of two tasks of one group and priority, each queued at the tail, the one queued first is
      ahead in every state of every run that does not touch the two again, whatever else is queued, dequeued, requeued,
      throttled and released meanwhile. So the later one is not at the head of their list, and is not picked. */
  lemma FirstInFirstOut(c: Cpu, t: nat, u: nat, between: seq<Step>, after: seq<Step>, d: Cpu)
    requires Inv(c) && SamePlace(c, t, u) && t != u && !OnRq(c, Task(t)) && !OnRq(c, Task(u))
    requires LeftAlone(between, t) && LeftAlone(between, u) && LeftAlone(after, t) && LeftAlone(after, u)
    requires d == Execute(Execute(c, [Enqueue(t, false)] + between), [Enqueue(u, false)] + after)
    ensures Before(d, t, u)
    ensures var q := d.rqs[d.tasks[u].group].queue;
            d.tasks[u].prio < |q| && q[d.tasks[u].prio] != [] && q[d.tasks[u].prio][0] != Task(u)
  {
    hide Inv, Apply, OnRq, Execute, Before, LeftAlone;
    var first, second := Enqueue(t, false), Enqueue(u, false);
    ExecuteOne(c, first, between);
    var c1 := Apply(c, first);
    InvAfter(c, first, c1);
    StepStays(c, first, c1, u);
    Queues(c, t, c1);
    var c2 := Execute(c1, between);
    RunStays(c1, between, t);
    RunStays(c1, between, u);
    ExecuteOne(c2, second, after);
    var c3 := Apply(c2, second);
    InvAfter(c2, second, c3);
    JoinsBehind(c2, t, u, c3);
    RunBefore(c3, after, t, u);
    NotHead(d, t, u);
  }

  lemma Queues(c: Cpu, t: nat, d: Cpu)
    requires Inv(c) && t in c.tasks && d == Apply(c, Enqueue(t, false))
    ensures OnRq(d, Task(t)) && d.tasks == c.tasks
  {
    hide Inv, Apply, OnRq, Relinked;
    ApplyExact(c, Enqueue(t, false), d);
  }

  lemma NotHead(d: Cpu, t: nat, u: nat)
    requires Inv(d) && Before(d, t, u)
    ensures d.tasks[u].group in d.rqs
    ensures var q := d.rqs[d.tasks[u].group].queue;
            d.tasks[u].prio < |q| && q[d.tasks[u].prio] != [] && q[d.tasks[u].prio][0] != Task(u)
  {
    hide Holds, Linked;
    var g, p := d.tasks[u].group, d.tasks[u].prio;
    SortedAt(d.rqs[g], Attrs(d), p);
    var q := d.rqs[g].queue[p];
    var i, j :| 0 <= i < j < |q| && q[i] == Task(t) && q[j] == Task(u);
    assert q[0] != q[j];
  }
}
