/**
 The operations as rt.c carries them out: one object whose queues are updated in place,
 with the loops over an entity's ancestors, proved equal to the functions of RtHierarchy.
 */
module RtCpu {
  import opened Basics
  import opened RtQueue
  import opened RtHierarchy
  import opened RtRuns
  import opened RtOrder

  class RtState {
    var tasks: map<nat, RtTask>
    var rqs: map<Path, RtRq>

    ghost function State(): Cpu
      reads this
    {
      Cpu(tasks, rqs)
    }

    /** `__enqueue_rt_entity` with `inc_rt_tasks`, `inc_rt_prio` and `inc_rt_group`. */
    method EnqueueOne(e: Entity, head: bool)
      requires Local(State()) && Known(State(), e)
      modifies this
      ensures State() == Enq(old(State()), e, head)
      ensures !old(OnRq(State(), e)) ==>
        && Owner(old(State()), e) in rqs
        && Relisted(old(rqs[Owner(State(), e)].queue), rqs[Owner(old(State()), e)].queue, e,
             old(Eligible(State(), e)), old(AttrOf(State(), e)).prio, head)
    {
      hide Local, Holds, OnRq, Known, Eligible, FirstBit, Link, AttrOf, EffThrottled, Relisted;
      var c := Cpu(tasks, rqs);
      KnownQueues(c, e);
      if !OnRq(c, e) {
        EnqLists(c, e, head, Enq(c, e, head));
      }
      if e.Group? && (EffThrottled(rqs[e.path]) || rqs[e.path].nrRunning == 0) {
        return;
      }
      EligiblePrio(c, e);
      ArrayOk(c, Owner(c, e));
      var a := AttrOf(c, e);
      var rq := rqs[Owner(c, e)];
      var leaf := if rq.nrRunning == 0 then true else rq.onLeafList;
      var queue := rq.queue[a.prio := Link(rq.queue[a.prio], e, head)];
      var bitmap := rq.bitmap[a.prio := true];
      rq := IncTasks(rq.(queue := queue, bitmap := bitmap, onLeafList := leaf), a);
      rqs := rqs[Owner(c, e) := rq];
    }

    /** `__dequeue_rt_entity` with `dec_rt_tasks`, `dec_rt_prio` and `dec_rt_group`. */
    method DequeueOne(e: Entity)
      requires Local(State()) && OnRq(State(), e)
      modifies this
      ensures State() == Deq(old(State()), e)
    {
      hide Local, Holds, OnRq, Known, FirstBit;
      var c := Cpu(tasks, rqs);
      OnRqPrio(c, e);
      ArrayOk(c, Owner(c, e));
      var a := AttrOf(c, e);
      var rq := rqs[Owner(c, e)];
      var queue := Unlink(rq.queue, e);
      var bitmap := if queue[a.prio] == [] then rq.bitmap[a.prio := false] else rq.bitmap;
      rq := DecTasks(rq.(queue := queue, bitmap := bitmap), a);
      if rq.nrRunning == 0 {
        rq := rq.(onLeafList := false);
      }
      rqs := rqs[Owner(c, e) := rq];
    }

    /** `dequeue_rt_stack`: link the ancestors into a `back` chain, then walk it from the top. */
    method DequeueStack(e: Entity)
      requires Local(State()) && Known(State(), e)
      modifies this
      ensures State() == DeqStack(old(State()), e)
    {
      var c := Cpu(tasks, rqs);
      hide Local, Known, OnRq, OnlyChain, ChainOff;
      var back := [e];
      while Owner(c, back[0]) != []
        invariant 0 < |back| && back[|back| - 1] == e && State() == c
        invariant forall i :: 0 <= i < |back| ==> Known(c, back[i])
        invariant forall i :: 0 < i < |back| ==> Owner(c, back[i]) != [] && back[i - 1] == Group(Owner(c, back[i]))
        decreases |Owner(c, back[0])|
      {
        OwnerKnown(c, back[0]);
        back := [Group(Owner(c, back[0]))] + back;
      }
      var i := 0;
      while i < |back|
        invariant 0 <= i <= |back|
        invariant State() == if i == 0 then c else DeqStack(c, back[i - 1])
        invariant Local(State())
      {
        KnownIn(c, Cpu(tasks, rqs), back[i], i, if i == 0 then e else back[i - 1]);
        if OnRq(Cpu(tasks, rqs), back[i]) {
          DequeueOne(back[i]);
        }
        i := i + 1;
      }
    }

    /** `enqueue_rt_entity`. */
    method EnqueueEntity(e: Entity, head: bool)
      requires Local(State()) && Known(State(), e)
      modifies this
      ensures State() == RtHierarchy.EnqueueEntity(old(State()), e, head)
    {
      hide Local, Known, OnRq, OnlyChain, ChainOff, OnlyMoved, ChainLinked, Eligible;
      ghost var c := State();
      DequeueStack(e);
      KnownChain(c, State(), e);
      var se := e;
      while true
        invariant Local(State()) && Known(State(), se) && ChainOff(State(), se)
        invariant EnqUp(State(), se, head) == RtHierarchy.EnqueueEntity(c, e, head)
        decreases |Owner(State(), se)|
      {
        ghost var c1 := State();
        EnqueueOne(se, head);
        PutOk(c1, se, head, State());
        OwnerIn(c1, State(), se);
        var g := Owner(Cpu(tasks, rqs), se);
        if g == [] {
          return;
        }
        OwnerShorter(g);
        se := Group(g);
      }
    }

    /** `dequeue_rt_entity`. */
    method DequeueEntity(e: Entity)
      requires Local(State()) && Known(State(), e)
      modifies this
      ensures State() == RtHierarchy.DequeueEntity(old(State()), e)
    {
      hide Local, OnRq, OnlyChain, ChainOff, OnlyMoved, ChainLinked, Eligible;
      ghost var c := State();
      DequeueStack(e);
      KnownChain(c, State(), e);
      var se := e;
      while true
        invariant Local(State()) && Known(State(), se) && ChainOff(State(), se)
        invariant Restore(State(), se) == RtHierarchy.DequeueEntity(c, e)
        decreases |Owner(State(), se)|
      {
        ghost var c1 := State();
        if se.Group? && rqs[se.path].nrRunning != 0 {
          EnqueueOne(se, false);
          PutOk(c1, se, false, State());
          OwnerIn(c1, State(), se);
        } else {
          ChainOffUp(c1, se);
        }
        var g := Owner(Cpu(tasks, rqs), se);
        if g == [] {
          return;
        }
        OwnerShorter(g);
        se := Group(g);
      }
    }

    /** The tail of `sched_rt_runtime_exceeded` once the budget is exceeded. */
    method ThrottleGroup(g: Path)
      requires Inv(State()) && g in rqs
      modifies this
      ensures State() == Throttle(old(State()), g) && Inv(State())
    {
      hide Inv, Local;
      ThrottleOk(State(), g);
      InvLocal(State());
      FlagOk(State(), g, true, SetFlag(State(), g, true));
      rqs := rqs[g := rqs[g].(throttled := true)];
      if EffThrottled(rqs[g]) {
        if g != [] && OnRq(Cpu(tasks, rqs), Group(g)) {
          DequeueEntity(Group(g));
        }
      }
    }

    /** The timer's unthrottling of one group, with `sched_rt_rq_enqueue`. */
    method UnthrottleGroup(g: Path)
      requires Inv(State()) && g in rqs
      modifies this
      ensures State() == Unthrottle(old(State()), g) && Inv(State())
    {
      hide Inv, Local;
      UnthrottleOk(State(), g);
      InvLocal(State());
      FlagOk(State(), g, false, SetFlag(State(), g, false));
      rqs := rqs[g := rqs[g].(throttled := false)];
      if rqs[g].nrRunning != 0 {
        if g != [] && !OnRq(Cpu(tasks, rqs), Group(g)) {
          GroupKnown(State(), g);
          EnqueueEntity(Group(g), false);
        }
      }
    }
  }

  /** `inc_rt_tasks`, with `inc_rt_prio` and `inc_rt_group`. */
  method IncTasks(rq: RtRq, a: Attr) returns (s: RtRq)
    ensures s == rq.(nrRunning := rq.nrRunning + 1,
                     highest := if a.prio < rq.highest then a.prio else rq.highest,
                     nrBoosted := rq.nrBoosted + if a.boosted then 1 else 0)
  {
    s := rq.(nrRunning := rq.nrRunning + 1);
    if a.prio < s.highest {
      s := s.(highest := a.prio);
    }
    if a.boosted {
      s := s.(nrBoosted := s.nrBoosted + 1);
    }
  }

  /** `dec_rt_tasks`, with `dec_rt_prio` and `dec_rt_group`. */
  method DecTasks(rq: RtRq, a: Attr) returns (s: RtRq)
    ensures s == rq.(nrRunning := rq.nrRunning - 1,
                     highest := if rq.nrRunning - 1 == 0 then MAX_RT_PRIO
                                else if a.prio == rq.highest then FirstBit(rq.bitmap, 0) else rq.highest,
                     nrBoosted := rq.nrBoosted - if a.boosted then 1 else 0)
  {
    s := rq.(nrRunning := rq.nrRunning - 1);
    if s.nrRunning != 0 {
      if a.prio == s.highest {
        s := s.(highest := FirstBit(s.bitmap, 0));
      }
    } else {
      s := s.(highest := MAX_RT_PRIO);
    }
    if a.boosted {
      s := s.(nrBoosted := s.nrBoosted - 1);
    }
  }

  lemma KnownQueues(c: Cpu, e: Entity)
    requires Known(c, e)
    ensures Owner(c, e) in c.rqs && (e.Group? ==> e.path in c.rqs)
    ensures Eligible(c, e) <==> !(e.Group? && (EffThrottled(c.rqs[e.path]) || c.rqs[e.path].nrRunning == 0))
  {
  }

  lemma InvLocal(c: Cpu)
    requires Inv(c)
    ensures Local(c)
  {
  }

  lemma OnRqPrio(c: Cpu, e: Entity)
    requires Local(c) && OnRq(c, e)
    ensures Owner(c, e) in c.rqs && 0 <= AttrOf(c, e).prio < MAX_RT_PRIO
  {
    UnlinkWhere(c.rqs[Owner(c, e)], e, Attrs(c));
  }

  lemma OwnerKnown(c: Cpu, e: Entity)
    requires Local(c) && Known(c, e) && Owner(c, e) != []
    ensures Known(c, Group(Owner(c, e))) && |Owner(c, Group(Owner(c, e)))| < |Owner(c, e)|
  {
  }

  lemma OwnerShorter(g: Path)
    requires g != []
    ensures |Parent(g)| < |g|
  {
  }

  lemma OwnerIn(c: Cpu, d: Cpu, e: Entity)
    requires OnlyMoved(c, d, e)
    ensures Owner(d, e) == Owner(c, e)
  {
  }

  lemma KnownIn(c: Cpu, d: Cpu, e: Entity, i: nat, last: Entity)
    requires Local(c) && Known(c, e) && Known(c, last) && d == if i == 0 then c else DeqStack(c, last)
    ensures Known(d, e)
  {
    if i > 0 {
      KnownFrame(c, d);
    }
  }
}
