/**
 What changes of policy, priority, nice value and group do, exactly: what the task is afterwards, which queue it is
 in, what the other tasks and the clock are; and what is lost when a boosted task gets its priority back.
 */
module SchedChanges {
  import opened Basics
  import opened WrrRotation
  import opened SchedClasses
  import opened SchedCell

  /** Tasks differ at most in the times of the current one, if it is a WRR task. */
  ghost predicate TimesOf(a: seq<Task>, b: seq<Task>, curr: Option<nat>)
  {
    && |b| == |a|
    && forall q :: 0 <= q < |a| ==>
         && b[q] == a[q].(execStart := b[q].execStart, sumExec := b[q].sumExec)
         && (curr != Some(q) || !a[q].cls.Wrr? ==> b[q] == a[q])
  }

  lemma TimesOfTrans(a: seq<Task>, b: seq<Task>, c: seq<Task>, curr: Option<nat>)
    requires TimesOf(a, b, curr) && TimesOf(b, c, curr)
    ensures TimesOf(a, c, curr)
  {
  }

  /** The queues besides that of the WRR class are compared through `In`; this is the order within it. */
  lemma TakenOut(c: Cell, p: nat, d: nat, e: Cell)
    requires p < |c.tasks| && CurrKnown(c) && e == DequeueTask(AddClock(c, d), p)
    ensures TimesOf(c.tasks, e.tasks, c.rq.curr) && e.rq.curr == c.rq.curr && e.rq.clock == c.rq.clock + d
    ensures e.rq.wrr == if c.tasks[p].cls.Wrr? then Without(c.rq.wrr, p) else c.rq.wrr
  {
    hide Without;
  }

  lemma PutDown(c: Cell, p: nat, e: Cell)
    requires c.rq.curr == Some(p) && p < |c.tasks| && e == PutPrevTask(c, p)
    ensures TimesOf(c.tasks, e.tasks, c.rq.curr) && e.rq == c.rq.(charged := e.rq.charged)
  {
  }

  lemma PickedUp(c: Cell, e: Cell)
    requires CurrKnown(c) && c.rq.curr.Some? && e == SetCurrTask(c)
    ensures TimesOf(c.tasks, e.tasks, c.rq.curr) && e.rq == c.rq
  {
  }

  lemma Queued(c: Cell, p: nat, d: nat, head: bool, e: Cell)
    requires p < |c.tasks| && CurrKnown(c) && e == EnqueueTask(AddClock(c, d), p, head)
    ensures e.tasks == c.tasks && e.rq.curr == c.rq.curr && e.rq.clock == c.rq.clock + d
    ensures e.rq.wrr ==
      if !c.tasks[p].cls.Wrr? then c.rq.wrr else if head then [p] + c.rq.wrr else c.rq.wrr + [p]
  {
  }

  lemma Finished(c: Cell, p: nat, ch: Change, restart: bool, d2: nat, head: bool, t: Task, e: Cell)
    requires p < |c.tasks| && CurrKnown(c) && (restart ==> c.rq.curr == Some(p))
    requires t == Altered(c.tasks[p], ch) && e == Finish(c, p, ch, restart, d2, head)
    ensures TimesOf(c.tasks[p := t], e.tasks, if restart then Some(p) else None)
    ensures e.rq.curr == c.rq.curr && e.rq.clock == c.rq.clock + if c.tasks[p].onRq then d2 else 0
    ensures e.rq.wrr ==
      if !c.tasks[p].onRq || !t.cls.Wrr? then c.rq.wrr else if head then [p] + c.rq.wrr else c.rq.wrr + [p]
  {
    hide AddClock, EnqueueTask, SetCurrTask, Altered;
    var changed := SetTask(c, p, t);
    var reset := if restart then SetCurrTask(changed) else changed;
    if restart {
      PickedUp(changed, reset);
    }
    if c.tasks[p].onRq {
      Queued(reset, p, d2, head, e);
    }
  }

  lemma Transacted(c: Cell, p: nat, ch: Change, d1: nat, d2: nat, t: Task, e: Cell)
    requires p < |c.tasks| && CurrKnown(c) && e == Transaction(c, p, ch, d1, d2)
    requires t == Altered(c.tasks[p], ch) && (ch.ToPrio? ==> !t.cls.Wrr?)
    ensures |e.tasks| == |c.tasks|
    ensures forall q :: 0 <= q < |c.tasks| && q != p ==>
      && e.tasks[q] == c.tasks[q].(execStart := e.tasks[q].execStart, sumExec := e.tasks[q].sumExec)
      && (c.rq.curr != Some(q) || !c.tasks[q].cls.Wrr? ==> e.tasks[q] == c.tasks[q])
    ensures e.tasks[p] == t.(execStart := e.tasks[p].execStart, sumExec := e.tasks[p].sumExec)
    ensures c.rq.curr != Some(p) || (!c.tasks[p].cls.Wrr? && !t.cls.Wrr?) ==> e.tasks[p] == t
    ensures e.rq.curr == c.rq.curr && e.rq.clock == c.rq.clock + if c.tasks[p].onRq then d1 + d2 else 0
    ensures c.tasks[p].onRq ==>
      e.rq.wrr == (if c.tasks[p].cls.Wrr? then Without(c.rq.wrr, p) else c.rq.wrr) + (if t.cls.Wrr? then [p] else [])
    ensures !c.tasks[p].onRq ==> e.rq.wrr == c.rq.wrr
  {
    hide DequeueTask, PutPrevTask, Finish, Altered, Without;
    var was := c.tasks[p];
    var restart := c.rq.curr == Some(p) && !ch.ToNice?;
    var out := if was.onRq then DequeueTask(AddClock(c, d1), p) else c;
    if was.onRq {
      TakenOut(c, p, d1, out);
    }
    assert TimesOf(c.tasks, out.tasks, c.rq.curr);
    var put := if restart then PutPrevTask(out, p) else out;
    if restart {
      PutDown(out, p, put);
    }
    TimesOfTrans(c.tasks, out.tasks, put.tasks, c.rq.curr);
    AlteredFrame(was, put.tasks[p], ch);
    Finished(put, p, ch, restart, d2, ch.ToPrio? && was.prio < ch.prio, Altered(put.tasks[p], ch), e);
  }

  /** A change neither reads nor sets times. */
  lemma AlteredFrame(t: Task, u: Task, ch: Change)
    requires u == t.(execStart := u.execStart, sumExec := u.sumExec)
    ensures Altered(u, ch) == Altered(t, ch).(execStart := u.execStart, sumExec := u.sumExec)
  {
  }

  // ---- What is asked for ----

  predicate Realtime(policy: Policy)
  {
    policy == Fifo || policy == RoundRobin
  }

  /** Changes that are turned down or come to nothing: a priority out of range or for a policy that has none, the stop
      task, and what the task already is. */
  predicate Nothing(t: Task, ch: Change)
  {
    match ch
    case ToPolicy(policy, rtPriority, _) =>
      || rtPriority > 99
      || (rtPriority > 0 && !Realtime(policy) && policy != WrrPolicy)
      || t.cls.Stop?
      || (policy == t.policy && !(Realtime(policy) && rtPriority != t.rtPriority))
    case ToNice(staticPrio) => staticPrio == t.staticPrio
    case _ => false
  }

  function Lower(a: int, b: int): int
  {
    if a < b then a else b
  }

  /** What the task is to be afterwards, in everything but its times. */
  predicate AsAsked(t: Task, ch: Change, u: Task)
  {
    && u.onRq == t.onRq && u.cpu == t.cpu && u.slice == t.slice
    && match ch
       case ToPolicy(policy, rtPriority, top) =>
         && u.policy == policy && u.rtPriority == rtPriority && u.staticPrio == t.staticPrio && u.group == t.group
         && u.prio == Lower(top, if Realtime(policy) then 99 - rtPriority else t.staticPrio)
         && (u.cls.Wrr? <==> policy == WrrPolicy)
         && (policy != WrrPolicy ==> u.cls == if u.prio < 100 then Rt else Fair)
       case ToPrio(prio) =>
         && u.policy == t.policy && u.rtPriority == t.rtPriority && u.staticPrio == t.staticPrio && u.group == t.group
         && u.prio == prio && u.cls == if prio < 100 then Rt else Fair
       case ToNice(staticPrio) =>
         && u.policy == t.policy && u.rtPriority == t.rtPriority && u.group == t.group && u.cls == t.cls
         && u.staticPrio == staticPrio
         && u.prio == if Realtime(t.policy) || t.prio < 100 then t.prio else staticPrio
       case ToGroup(group) =>
         && u.policy == t.policy && u.rtPriority == t.rtPriority && u.staticPrio == t.staticPrio
         && u.prio == t.prio && u.cls == t.cls && u.group == group
  }

  lemma NothingIff(t: Task, ch: Change)
    ensures Nothing(t, ch) <==> Refused(t, ch)
  {
    if ch.ToPolicy? {
      AcceptableIs(ch.policy, ch.rtPriority);
    }
  }

  lemma AlteredIs(t: Task, ch: Change)
    requires !(ch.ToNice? && Realtime(t.policy))
    ensures AsAsked(t, ch, Altered(t, ch)) && (ch.ToPrio? ==> !Altered(t, ch).cls.Wrr?)
    ensures Altered(t, ch).execStart == t.execStart && Altered(t, ch).sumExec == t.sumExec
  {
  }

  /** Every change, exactly. One that comes to nothing leaves everything as it was. Any other makes the task what was
      asked for and puts it, if it is queued, in the queue of the class it then has, at the end of the WRR queue if that
      is its class; all other tasks stay as and where they are, but for the times of a current WRR task. */
  lemma ChangeExact(c: Cell, p: nat, ch: Change, d1: nat, d2: nat, r: nat, e: Cell)
    requires CellInv(c, r, None) && p < |c.tasks| && c.tasks[p].cpu == r && e == ChangeTask(c, p, ch, d1, d2)
    ensures |e.tasks| == |c.tasks| && e.rq.curr == c.rq.curr
    ensures Nothing(c.tasks[p], ch) ==> e == c
    ensures !Nothing(c.tasks[p], ch) ==> AsAsked(c.tasks[p], ch, e.tasks[p])
    ensures c.rq.curr != Some(p) || (!c.tasks[p].cls.Wrr? && !e.tasks[p].cls.Wrr?) ==>
      e.tasks[p].execStart == c.tasks[p].execStart && e.tasks[p].sumExec == c.tasks[p].sumExec
    ensures forall cls :: In(e.rq, cls, p) <==> c.tasks[p].onRq && cls == e.tasks[p].cls
    ensures forall q, cls :: 0 <= q < |c.tasks| && q != p ==> (In(e.rq, cls, q) <==> In(c.rq, cls, q))
    ensures forall q :: 0 <= q < |c.tasks| && q != p ==>
      && e.tasks[q] == c.tasks[q].(execStart := e.tasks[q].execStart, sumExec := e.tasks[q].sumExec)
      && (c.rq.curr != Some(q) || !c.tasks[q].cls.Wrr? ==> e.tasks[q] == c.tasks[q])
    ensures !Nothing(c.tasks[p], ch) && c.tasks[p].onRq && !(ch.ToNice? && Realtime(c.tasks[p].policy)) ==>
      && e.rq.clock == c.rq.clock + d1 + d2
      && e.rq.wrr == (if c.tasks[p].cls.Wrr? then Without(c.rq.wrr, p) else c.rq.wrr)
                   + (if e.tasks[p].cls.Wrr? then [p] else [])
  {
    hide Transaction, Altered, Counts, TasksOk, Without, Refused, Nothing;
    var t := c.tasks[p];
    NothingIff(t, ch);
    ChangeTaskInv(c, p, ch, d1, d2, r);
    if !Nothing(t, ch) && !(ch.ToNice? && Realtime(t.policy)) {
      AlteredIs(t, ch);
      Transacted(c, p, ch, d1, d2, Altered(t, ch), e);
    }
    hide CellInv;
    Stays(c, p, r, e);
  }

  /** Where the invariant puts the tasks before and after. */
  lemma Stays(c: Cell, p: nat, r: nat, e: Cell)
    requires CellInv(c, r, None) && CellInv(e, r, None) && p < |c.tasks| == |e.tasks| && c.tasks[p].cpu == r
    requires e.tasks[p].onRq == c.tasks[p].onRq && e.tasks[p].cpu == r
    requires forall q :: 0 <= q < |c.tasks| && q != p ==>
      e.tasks[q] == c.tasks[q].(execStart := e.tasks[q].execStart, sumExec := e.tasks[q].sumExec)
    ensures forall cls :: In(e.rq, cls, p) <==> c.tasks[p].onRq && cls == e.tasks[p].cls
    ensures forall q, cls :: 0 <= q < |c.tasks| && q != p ==> (In(e.rq, cls, q) <==> In(c.rq, cls, q))
  {
    hide Counts, TasksOk, CurrHere;
  }

  /** A boost reaches its task: one asked for a priority below 100 is in the RT queue, whatever it was in before. */
  lemma BoostReaches(c: Cell, p: nat, prio: int, d1: nat, d2: nat, r: nat)
    requires CellInv(c, r, None) && p < |c.tasks| && c.tasks[p].cpu == r && c.tasks[p].onRq
    ensures var e := ChangeTask(c, p, ToPrio(prio), d1, d2);
            && |e.tasks| == |c.tasks| && e.tasks[p].prio == prio
            && (p in e.rq.rt <==> prio < 100) && (p in e.rq.fair <==> prio >= 100) && p !in e.rq.wrr
  {
    hide ChangeTask, Counts, TasksOk, Placed, Without;
    var e := ChangeTask(c, p, ToPrio(prio), d1, d2);
    ChangeExact(c, p, ToPrio(prio), d1, d2, r, e);
    assert In(e.rq, Rt, p) <==> p in e.rq.rt;
    assert In(e.rq, Fair, p) <==> p in e.rq.fair;
    assert In(e.rq, Wrr, p) <==> p in e.rq.wrr;
  }

  /** When a boost ends and the task gets its priority back, it is back in its class exactly if that class is the one
      its priority stands for: a WRR task is left in the fair class, although its policy is still WRR. */
  lemma UnboostRestoresIff(c: Cell, p: nat, prio: int, d1: nat, d2: nat, d3: nat, d4: nat, r: nat)
    requires CellInv(c, r, None) && p < |c.tasks| && c.tasks[p].cpu == r
    ensures var b := ChangeTask(c, p, ToPrio(prio), d1, d2);
            && p < |b.tasks| && CurrKnown(b)
            && var e := ChangeTask(b, p, ToPrio(c.tasks[p].prio), d3, d4);
               && p < |e.tasks| && e.tasks[p].prio == c.tasks[p].prio && e.tasks[p].policy == c.tasks[p].policy
               && (e.tasks[p].cls == c.tasks[p].cls <==>
                     c.tasks[p].cls == if c.tasks[p].prio < 100 then Rt else Fair)
               && (c.tasks[p].cls.Wrr? ==> !e.tasks[p].cls.Wrr? && p !in e.rq.wrr)
  {
    hide ChangeTask, Counts, TasksOk, Placed, Without;
    var b := ChangeTask(c, p, ToPrio(prio), d1, d2);
    ChangeExact(c, p, ToPrio(prio), d1, d2, r, b);
    ChangeTaskInv(c, p, ToPrio(prio), d1, d2, r);
    var e := ChangeTask(b, p, ToPrio(c.tasks[p].prio), d3, d4);
    ChangeExact(b, p, ToPrio(c.tasks[p].prio), d3, d4, r, e);
    assert In(e.rq, Wrr, p) <==> p in e.rq.wrr;
  }
}
