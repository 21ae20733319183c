/**
 `_pick_next_task_rt`: descend from the root queue, at each level to the head of the best list.
 */
module RtPick {
  import opened Basics
  import opened RtQueue
  import opened RtHierarchy
  import opened RtRuns

  /** Task t is queued and no group above it is effectively throttled. */
  ghost predicate Runnable(c: Cpu, t: nat)
  {
    && OnRq(c, Task(t))
    && forall p :: p in c.rqs && p != [] && Above(p, c.tasks[t].group) ==> !EffThrottled(c.rqs[p])
  }

  /** The root's cached priority is at least as good as that of any non-empty group that may run. */
  lemma {:induction false} RootBeats(c: Cpu, g: Path)
    requires Inv(c) && g in c.rqs && c.rqs[g].nrRunning > 0
    requires forall p :: p in c.rqs && p != [] && Above(p, g) ==> !EffThrottled(c.rqs[p])
    ensures [] in c.rqs && c.rqs[[]].nrRunning > 0 && c.rqs[[]].highest <= c.rqs[g].highest
    decreases |g|
  {
    hide RqOk, Holds, Parent;
    if g != [] {
      AboveParent(g, g);
      GroupKnown(c, g);
      assert Linked(c, g);
      HighestMeaning(c.rqs[Parent(g)], Attrs(c));
      forall p
        ensures Above(p, Parent(g)) ==> Above(p, g)
      {
        AboveParent(p, g);
      }
      ParentShorter(g);
      RootBeats(c, Parent(g));
    }
  }

  lemma ParentShorter(g: Path)
    requires g != []
    ensures |Parent(g)| < |g|
  {
  }

  lemma RootBeatsTask(c: Cpu, t: nat)
    requires Inv(c) && Runnable(c, t)
    ensures [] in c.rqs && c.rqs[[]].nrRunning > 0 && c.rqs[[]].highest <= c.tasks[t].prio
  {
    hide RqOk, Holds, Parent, Above;
    HighestMeaning(c.rqs[c.tasks[t].group], Attrs(c));
    RootBeats(c, c.tasks[t].group);
  }

  /** The groups at or below g. */
  ghost function Below(c: Cpu, g: Path): set<Path>
  {
    set p | p in c.rqs && Above(g, p)
  }

  /** Descending to a queued child group shrinks the tree that is left. */
  lemma BelowShrinks(c: Cpu, g: Path, p: Path)
    requires g in c.rqs && p != [] && Parent(p) == g
    ensures Below(c, p) < Below(c, g)
  {
    assert g in Below(c, g) && g !in Below(c, p);
    forall q | q in Below(c, p)
      ensures q in Below(c, g)
    {
      assert q[..|g|] == p[..|g|] == g;
    }
  }

  /** The entity at the head of a non-empty queue: `pick_next_rt_entity`. The `BUG_ON` is unreachable. */
  method PickNextEntity(c: Cpu, g: Path) returns (e: Entity)
    requires Inv(c) && g in c.rqs && c.rqs[g].nrRunning > 0
    ensures OnRq(c, e) && Owner(c, e) == g && AttrOf(c, e).prio == c.rqs[g].highest
    ensures 0 <= c.rqs[g].highest < |c.rqs[g].queue|
    ensures c.rqs[g].queue[c.rqs[g].highest] != [] && c.rqs[g].queue[c.rqs[g].highest][0] == e
  {
    HighestMeaning(c.rqs[g], Attrs(c));
    var idx := FirstBit(c.rqs[g].bitmap, 0);
    assert idx < MAX_RT_PRIO;
    e := c.rqs[g].queue[idx][0];
    HeadFacts(c, g, e);
  }

  lemma HeadFacts(c: Cpu, g: Path, e: Entity)
    requires Local(c) && g in c.rqs && 0 <= c.rqs[g].highest < MAX_RT_PRIO
    requires e in c.rqs[g].queue[c.rqs[g].highest]
    ensures OnRq(c, e) && Owner(c, e) == g && AttrOf(c, e).prio == c.rqs[g].highest
  {
    assert Holds(c.rqs[g], e);
    HoldsWhere(c.rqs[g], e, Attrs(c));
  }

  /** From any state with the invariant the pick terminates, never trips its `BUG_ON`s, and returns the head of
      the best list among all tasks that may run; it returns nothing exactly when the root queue is throttled
      or no task may run. */
  method PickNextTask(c: Cpu) returns (r: Option<nat>)
    requires Inv(c)
    ensures [] in c.rqs
    ensures r.None? <==> c.rqs[[]].nrRunning == 0 || EffThrottled(c.rqs[[]])
    ensures r.None? <==> EffThrottled(c.rqs[[]]) || forall t :: !Runnable(c, t)
    ensures r.Some? ==> Runnable(c, r.value)
    ensures r.Some? ==> forall t :: Runnable(c, t) ==> c.tasks[r.value].prio <= c.tasks[t].prio
    ensures r.Some? ==>
      var task := c.tasks[r.value];
      && task.group in c.rqs && task.prio < |c.rqs[task.group].queue|
      && c.rqs[task.group].queue[task.prio] != []
      && c.rqs[task.group].queue[task.prio][0] == Task(r.value)
  {
    hide RqOk, Holds, Above, Parent;
    forall t | Runnable(c, t)
      ensures c.rqs[[]].nrRunning > 0 && c.rqs[[]].highest <= c.tasks[t].prio
    {
      RootBeatsTask(c, t);
    }
    HighestMeaning(c.rqs[[]], Attrs(c));
    if c.rqs[[]].nrRunning == 0 {
      return None;
    }
    if EffThrottled(c.rqs[[]]) {
      return None;
    }
    var g: Path := [];
    AboveNone();
    var e := PickNextEntity(c, g);
    while e.Group?
      invariant g in c.rqs && c.rqs[g].nrRunning > 0 && c.rqs[g].highest == c.rqs[[]].highest
      invariant OnRq(c, e) && Owner(c, e) == g && AttrOf(c, e).prio == c.rqs[g].highest
      invariant 0 <= c.rqs[g].highest < |c.rqs[g].queue|
      invariant c.rqs[g].queue[c.rqs[g].highest] != [] && c.rqs[g].queue[c.rqs[g].highest][0] == e
      invariant forall p :: p in c.rqs && p != [] && Above(p, g) ==> !EffThrottled(c.rqs[p])
      decreases Below(c, g)
    {
      assert Linked(c, e.path);
      BelowShrinks(c, g, e.path);
      AboveStep(e.path);
      g := e.path;
      HighestMeaning(c.rqs[g], Attrs(c));
      e := PickNextEntity(c, g);
    }
    r := Some(e.id);
    assert Runnable(c, e.id);
  }

  lemma AboveNone()
    ensures forall p :: Above(p, []) ==> p == []
  {
  }

  lemma AboveStep(g: Path)
    requires g != []
    ensures forall p :: Above(p, g) ==> p == g || Above(p, Parent(g))
  {
    forall p
      ensures Above(p, g) ==> p == g || Above(p, Parent(g))
    {
      AboveParent(p, g);
    }
  }

  // ----- from the empty hierarchy on

  lemma BootOk(c: Cpu)
    requires c == Cpu(map[], map[[] := EmptyRq()])
    ensures Inv(c)
  {
    hide RqOk, Holds, EmptyRq, Parent;
    EmptyRqOk(Attrs(c));
  }

  /** A CPU after boot: no RT tasks, only the root queue. */
  function Boot(): (c: Cpu)
    ensures Inv(c)
  {
    var c := Cpu(map[], map[[] := EmptyRq()]);
    BootOk(c);
    c
  }

  /** Carry out the steps in order; a step that is not enabled does not happen. */
  function Execute(c: Cpu, steps: seq<Step>): (d: Cpu)
    requires Inv(c)
    ensures Inv(d)
    decreases |steps|
  {
    hide Inv, Apply, Enabled;
    if steps == [] then c
    else if Enabled(c, steps[0]) then
      ApplyOk(c, steps[0]);
      Execute(Apply(c, steps[0]), steps[1..])
    else Execute(c, steps[1..])
  }

  /** What the invariant says about one group's queue, in the terms of `struct rt_rq`. */
  ghost predicate QueueConsistent(c: Cpu, g: Path)
    requires g in c.rqs
  {
    var r := c.rqs[g];
    && ArrayShape(r) && r.bitmap[MAX_RT_PRIO]
    && (forall i :: 0 <= i < MAX_RT_PRIO ==> (r.bitmap[i] <==> r.queue[i] != []))
    && r.nrRunning == Total(r.queue, MAX_RT_PRIO)
    && r.nrBoosted == BoostedTotal(r.queue, Attrs(c), MAX_RT_PRIO)
    && 0 <= r.highest <= MAX_RT_PRIO
    && (r.highest < MAX_RT_PRIO ==> r.queue[r.highest] != [])
    && (forall i :: 0 <= i < r.highest ==> r.queue[i] == [])
  }

  /** The group's entity is in its parent's list of its own best priority if it has something queued and is
      not effectively throttled, and otherwise in no list of the CPU at all. */
  ghost predicate GroupPlaced(c: Cpu, p: Path)
    requires p in c.rqs
  {
    && Parent(p) in c.rqs && |c.rqs[Parent(p)].queue| == MAX_RT_PRIO
    && if c.rqs[p].nrRunning > 0 && !(c.rqs[p].throttled && c.rqs[p].nrBoosted == 0)
       then 0 <= c.rqs[p].highest < MAX_RT_PRIO && Group(p) in c.rqs[Parent(p)].queue[c.rqs[p].highest]
       else forall g, i :: g in c.rqs && 0 <= i < |c.rqs[g].queue| ==> Group(p) !in c.rqs[g].queue[i]
  }

  /** A task is in no list but that of its priority in its group's queue. */
  ghost predicate TaskPlaced(c: Cpu, t: nat)
    requires t in c.tasks
  {
    forall g, i :: g in c.rqs && 0 <= i < |c.rqs[g].queue| && Task(t) in c.rqs[g].queue[i] ==>
      g == c.tasks[t].group && i == c.tasks[t].prio
  }

  /** A task running above its own priority is boosted, and so is a group that has anything boosted queued. */
  predicate Boosted(c: Cpu, e: Entity)
  {
    match e
    case Task(t) => t in c.tasks && c.tasks[t].prio != c.tasks[t].normalPrio
    case Group(p) => p in c.rqs && c.rqs[p].nrBoosted > 0
  }

  lemma {:induction false} BoostedInSome(q: seq<Entity>, attr: Entity -> Attr)
    ensures BoostedIn(q, attr) > 0 <==> exists e :: e in q && attr(e).boosted
  {
    if q != [] {
      BoostedInSome(q[1..], attr);
      assert forall e :: e in q <==> e == q[0] || e in q[1..];
    }
  }

  lemma {:induction false} BoostedSome(queue: seq<seq<Entity>>, attr: Entity -> Attr, n: nat)
    requires n <= |queue|
    ensures BoostedTotal(queue, attr, n) > 0 <==> exists i, e :: 0 <= i < n && e in queue[i] && attr(e).boosted
  {
    if n > 0 {
      BoostedSome(queue, attr, n - 1);
      BoostedInSome(queue[n - 1], attr);
    }
  }

  /** A group escapes its throttling exactly while something boosted is queued in it. */
  lemma BoostedMeaning(c: Cpu, g: Path)
    requires Inv(c) && g in c.rqs
    ensures c.rqs[g].nrBoosted >= 0
    ensures c.rqs[g].nrBoosted > 0 <==> exists e :: Holds(c.rqs[g], e) && Boosted(c, e)
    ensures EffThrottled(c.rqs[g]) <==> c.rqs[g].throttled && forall e :: Holds(c.rqs[g], e) ==> !Boosted(c, e)
  {
    hide Linked, WfTree, BoostedTotal;
    var r := c.rqs[g];
    BoostedSome(r.queue, Attrs(c), MAX_RT_PRIO);
    forall e | Holds(r, e)
      ensures Attrs(c)(e).boosted <==> Boosted(c, e)
    {
      assert Known(c, e);
      if e.Group? {
        assert RqOk(c.rqs[e.path], Attrs(c));
      }
    }
    if r.nrBoosted > 0 {
      var i, e :| 0 <= i < MAX_RT_PRIO && e in r.queue[i] && Attrs(c)(e).boosted;
      assert Holds(r, e);
    }
  }

  /** For every sequence of steps from boot, every queue is consistent and every group is in its place. */
  lemma EveryRun(steps: seq<Step>, c: Cpu)
    requires c == Execute(Boot(), steps)
    ensures forall g :: g in c.rqs ==> QueueConsistent(c, g)
    ensures forall p :: p in c.rqs && p != [] ==> GroupPlaced(c, p)
    ensures forall t :: t in c.tasks ==> TaskPlaced(c, t)
  {
    hide Boot, Execute, Inv, GroupPlaced, QueueConsistent, TaskPlaced;
    forall t | t in c.tasks
      ensures TaskPlaced(c, t)
    {
      TaskPlacedOk(c, t);
    }
    forall g | g in c.rqs
      ensures QueueConsistent(c, g)
    {
      QueueConsistentOk(c, g);
    }
    forall p | p in c.rqs && p != []
      ensures GroupPlaced(c, p)
    {
      GroupPlacedOk(c, p);
    }
  }

  lemma QueueConsistentOk(c: Cpu, g: Path)
    requires Inv(c) && g in c.rqs
    ensures QueueConsistent(c, g)
  {
    HighestMeaning(c.rqs[g], Attrs(c));
  }

  lemma TaskPlacedOk(c: Cpu, t: nat)
    requires Inv(c) && t in c.tasks
    ensures TaskPlaced(c, t)
  {
    hide Parent, RqOk, Above, Linked;
    forall g, i | g in c.rqs && 0 <= i < |c.rqs[g].queue| && Task(t) in c.rqs[g].queue[i]
      ensures g == c.tasks[t].group && i == c.tasks[t].prio
    {
      assert Holds(c.rqs[g], Task(t));
      HoldsWhere(c.rqs[g], Task(t), Attrs(c));
    }
  }

  lemma GroupPlacedOk(c: Cpu, p: Path)
    requires Inv(c) && p in c.rqs && p != []
    ensures GroupPlaced(c, p)
  {
    hide Parent, RqOk, Above;
    GroupKnown(c, p);
    assert Linked(c, p);
    ArrayOk(c, Parent(p));
    HighestMeaning(c.rqs[p], Attrs(c));
    HoldsWhere(c.rqs[Parent(p)], Group(p), Attrs(c));
  }

  // ----- a group left behind

  /** A group is created with one task in it, the task is queued, and the group is throttled. */
  const G: Path := [0]
  const T := RtTask(50, 50, [0])

  /** Clearing the flag then, as `__enable_runtime` does, leaves the group off its parent's queue although it has a
      task to run. */
  lemma LeftBehind(c: Cpu)
    requires c == Execute(Boot(), [CreateGroup(G), SetTask(0, T), Enqueue(0, false), ThrottleGroup(G)])
    ensures Inv(c) && G in c.rqs && !Inv(SetFlag(c, G, false))
  {
    hide Execute, Inv, Apply, Enabled, EffThrottled;
    var steps := [CreateGroup(G), SetTask(0, T), Enqueue(0, false), ThrottleGroup(G)];
    var c0 := Boot();
    var r3 := [ThrottleGroup(G)] + [];
    var r2 := [Enqueue(0, false)] + r3;
    var r1 := [SetTask(0, T)] + r2;
    assert steps == [CreateGroup(G)] + r1;
    Created(c0);
    ExecuteOne(c0, CreateGroup(G), r1);
    var c1 := Apply(c0, CreateGroup(G));
    Assigned(c1);
    ExecuteOne(c1, SetTask(0, T), r2);
    var c2 := Apply(c1, SetTask(0, T));
    Queued(c2);
    ExecuteOne(c2, Enqueue(0, false), r3);
    var c3 := Apply(c2, Enqueue(0, false));
    Throttled(c3);
    ExecuteOne(c3, ThrottleGroup(G), []);
    ExecuteNone(Apply(c3, ThrottleGroup(G)));
    EnableRuntimeKeepsInvIff(c, G);
  }

  lemma ExecuteOne(c: Cpu, step: Step, rest: seq<Step>)
    requires Inv(c) && Enabled(c, step)
    ensures Inv(Apply(c, step)) && Execute(c, [step] + rest) == Execute(Apply(c, step), rest)
  {
    hide Inv, Apply, Enabled;
    ApplyOk(c, step);
    assert ([step] + rest)[1..] == rest;
  }

  lemma ExecuteNone(c: Cpu)
    requires Inv(c)
    ensures Execute(c, []) == c
  {
    hide Inv;
  }

  lemma Created(c: Cpu)
    requires c == Boot()
    ensures Enabled(c, CreateGroup(G))
    ensures var d := Apply(c, CreateGroup(G));
            d.tasks == map[] && d.rqs == map[[] := EmptyRq(), G := EmptyRq()]
  {
    hide EmptyRq, Inv;
  }

  lemma Assigned(c: Cpu)
    requires Inv(c) && c.tasks == map[] && c.rqs == map[[] := EmptyRq(), G := EmptyRq()]
    ensures Enabled(c, SetTask(0, T))
    ensures Apply(c, SetTask(0, T)) == Cpu(map[0 := T], c.rqs)
  {
    hide EmptyRq, Inv, OnRq, Known;
    KnownIfQueued(c, Task(0));
    NoTasks(c);
    var d := Apply(c, SetTask(0, T));
    assert d.tasks == map[0 := T];
  }

  lemma NoTasks(c: Cpu)
    requires c.tasks == map[]
    ensures !Known(c, Task(0))
  {
  }

  lemma KnownIfQueued(c: Cpu, e: Entity)
    requires Inv(c)
    ensures OnRq(c, e) ==> Known(c, e)
  {
    hide RqOk, Holds;
  }

  /** The group's queue then holds the task, unboosted. */
  lemma Queued(c: Cpu)
    requires Inv(c) && c == Cpu(map[0 := T], map[[] := EmptyRq(), G := EmptyRq()])
    ensures Enabled(c, Enqueue(0, false))
    ensures var d := Apply(c, Enqueue(0, false));
            G in d.rqs && d.rqs[G].nrRunning == 1 && d.rqs[G].nrBoosted == 0
  {
    hide Inv, EnqueueEntity, RqOk;
    var e := Task(0);
    EmptyRqOk(Attrs(c));
    assert Known(c, e) && Owner(c, e) == G && AttrOf(c, e) == Attr(50, false);
    assert !OnRq(c, e);
    EnqueueTaskExact(c, e, false, EnqueueEntity(c, e, false));
  }

  /** Throttling takes the group off its parent's queue and leaves its own queue as it was. */
  lemma Throttled(c: Cpu)
    requires Inv(c) && G in c.rqs && c.rqs[G].nrRunning == 1 && c.rqs[G].nrBoosted == 0
    ensures Enabled(c, ThrottleGroup(G))
    ensures var d := Apply(c, ThrottleGroup(G));
            G in d.rqs && d.rqs[G].nrRunning == 1 && EffThrottled(d.rqs[G])
  {
    hide DequeueEntity, RqOk, Holds, Local, Linked;
    var c1 := SetFlag(c, G, true);
    FlagInv(c, G, true, c1);
    if OnRq(c1, Group(G)) {
      DequeueEntityOk(c1, Group(G), DequeueEntity(c1, Group(G)));
    }
  }
}
