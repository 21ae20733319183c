/**
 The WRR class on a CPU with no stop or RT task: each tick, with the reschedule it asks for, is one tick of the
 rotation, so turns come and last exactly as the slices say.
 */
module WrrTurns {
  import opened Basics
  import opened WrrRotation
  import opened SchedClasses
  import opened SchedCell

  /** The queue with each task's group and slice. */
  function View(queue: seq<nat>, tasks: seq<Task>): (v: seq<Ent>)
    requires forall i :: 0 <= i < |queue| ==> queue[i] < |tasks|
    ensures |v| == |queue|
    ensures forall i :: 0 <= i < |v| ==> v[i] == Ent(queue[i], tasks[queue[i]].group, tasks[queue[i]].slice)
  {
    if queue == [] then []
    else
      var p := queue[0];
      [Ent(p, tasks[p].group, tasks[p].slice)] + View(queue[1..], tasks)
  }

  predicate QueueKnown(c: Cell)
  {
    forall i :: 0 <= i < |c.rq.wrr| ==> c.rq.wrr[i] < |c.tasks|
  }

  /** The WRR head runs, and no higher class has a task. */
  ghost predicate Ready(c: Cell, r: nat)
  {
    && CellInv(c, r, None)
    && QueueKnown(c)
    && c.rq.stop == {} && c.rq.rt == {}
    && c.rq.wrr != [] && c.rq.curr == Some(c.rq.wrr[0])
  }

  /** A tick and the reschedule on return from it, a WRR task waking up, or a schedule without a tick. */
  datatype Event =
    | TickAt(d1: nat, seen: Seen, k: Picks, d2: nat)
    | WakeAt(p: nat, d: nat)
    | ScheduleAt(k: Picks, d: nat)

  predicate Possible(c: Cell, r: nat, ev: Event)
  {
    match ev
    case TickAt(_, _, k, _) => PicksOk(c.rq, k)
    case ScheduleAt(k, _) => PicksOk(c.rq, k)
    case WakeAt(p, _) => p < |c.tasks| && c.tasks[p].cls.Wrr? && !c.tasks[p].onRq && c.tasks[p].cpu == r
  }

  function Happen(c: Cell, hz: nat, ev: Event): Cell
    requires CurrKnown(c) && c.rq.curr.Some? && QueueKnown(c)
    requires ev.WakeAt? ==> ev.p < |c.tasks|
  {
    match ev
    case TickAt(d1, seen, k, d2) =>
      var (t, resched) := TickWrr(AddClock(c, d1), PathRefill(seen, hz));
      if resched && CurrKnown(t) && (t.rq.wrr != [] ==> t.rq.wrr[0] < |t.tasks|) then Switch(t, k, d2) else t
    case WakeAt(p, d) => Activate(c, p, d)
    case ScheduleAt(k, d) => if c.rq.wrr == [] then c else Switch(c, k, d)
  }

  /** The event as steps of the rotation; a schedule is none. */
  function Abstract(c: Cell, hz: nat, ev: Event): seq<Step>
    requires ev.WakeAt? ==> ev.p < |c.tasks|
  {
    match ev
    case TickAt(_, seen, _, _) => [TickStep(PathRefill(seen, hz))]
    case WakeAt(p, _) => [Join(Ent(p, c.tasks[p].group, c.tasks[p].slice))]
    case ScheduleAt(_, _) => []
  }

  lemma ReadyHead(c: Cell, r: nat)
    requires Ready(c, r)
    ensures CurrHere(c, r) && WrrCurrent(c)
    ensures c.tasks[c.rq.wrr[0]].policy == WrrPolicy && c.tasks[c.rq.wrr[0]].onRq
    ensures c.tasks[c.rq.wrr[0]].cpu == r
  {
    hide Counts;
    assert In(c.rq, Wrr, c.rq.wrr[0]);
    assert TaskOk(c.tasks[c.rq.wrr[0]]);
  }

  /** The slices a tick leaves, before any requeue. */
  lemma TickSlices(c: Cell, refill: nat, r: nat)
    requires Ready(c, r)
    ensures var p := c.rq.wrr[0];
            var left := Dec(c.tasks[p].slice);
            var (t, resched) := TickWrr(c, refill);
            && |t.tasks| == |c.tasks|
            && t.tasks[p].slice == (if left != 0 then left else refill)
            && (forall x :: 0 <= x < |c.tasks| ==> t.tasks[x].group == c.tasks[x].group)
            && (forall x :: 0 <= x < |c.tasks| && x != p ==> t.tasks[x].slice == c.tasks[x].slice)
            && (resched <==> left == 0 && |c.rq.wrr| >= 2)
            && t.rq.wrr == (if resched then Without(c.rq.wrr, p) + [p] else c.rq.wrr)
            && t.rq.curr == c.rq.curr && t.rq.stop == c.rq.stop && t.rq.rt == c.rq.rt && t.rq.fair == c.rq.fair
            && t.rq.clock == c.rq.clock
  {
    ReadyHead(c, r);
  }

  lemma WithoutHead(q: seq<nat>)
    requires q != []
    ensures Without(q, q[0]) == q[1..]
  {
  }

  /** A tick with its reschedule turns the queue as the rotation says, and the head runs again. */
  lemma TickTurns(c: Cell, hz: nat, ev: Event, r: nat)
    requires Ready(c, r) && ev.TickAt? && Possible(c, r, ev)
    ensures var e := Happen(c, hz, ev);
            Ready(e, r) && View(e.rq.wrr, e.tasks) == TickTo(View(c.rq.wrr, c.tasks), PathRefill(ev.seen, hz))
    ensures var turn := c.tasks[c.rq.curr.value].slice == 1 && |c.rq.wrr| >= 2;
            Happen(c, hz, ev).rq.clock == c.rq.clock + ev.d1 + if turn then ev.d2 else 0
  {
    hide AddClock, TickWrr, Switch, CellInv, PathRefill, Dec;
    ReadyHead(c, r);
    CellInvKnown(c, r);
    AddClockOk(c, ev.d1, r, None);
    AddClockKeeps(c, ev.d1);
    var a := AddClock(c, ev.d1);
    assert Ready(a, r);
    var refill := PathRefill(ev.seen, hz);
    TickStepInv(a, refill, r);
    TickSlices(a, refill, r);
    var (t, resched) := TickWrr(a, refill);
    WithoutHead(a.rq.wrr);
    QueueKnownInv(t, r);
    if resched {
      WrrQueued(t, r);
      CellInvKnown(t, r);
      SwitchInv(t, ev.k, ev.d2, r);
      SwitchKeeps(t, ev.k, ev.d2, r);
    }
    TurnedView(c, hz, ev, r);
    DecZero(c.tasks[c.rq.curr.value].slice);
  }

  lemma DecZero(slice: nat)
    ensures Dec(slice) == 0 <==> slice == 1
  {
  }

  lemma CellInvKnown(c: Cell, r: nat)
    requires CellInv(c, r, None)
    ensures CurrKnown(c)
  {
  }

  lemma QueueKnownInv(c: Cell, r: nat)
    requires CellInv(c, r, None)
    ensures QueueKnown(c)
  {
    hide Counts;
    forall i | 0 <= i < |c.rq.wrr| ensures c.rq.wrr[i] < |c.tasks| {
      assert In(c.rq, Wrr, c.rq.wrr[i]);
    }
  }

  /** The tick alone keeps the run queue in order. */
  lemma TickStepInv(c: Cell, refill: nat, r: nat)
    requires Ready(c, r)
    ensures CellInv(TickWrr(c, refill).0, r, None)
  {
    hide TickWrr, CellInv;
    ReadyHead(c, r);
    TickInv(c, refill, 0, r);
    NoClock(c);
  }

  lemma NoClock(c: Cell)
    requires CurrKnown(c)
    ensures AddClock(c, 0) == c
  {
  }

  /** A switch with no higher class runs the WRR head and leaves queue, groups and slices alone. */
  lemma SwitchKeeps(c: Cell, k: Picks, d: nat, r: nat)
    requires CellInv(c, r, None) && PicksOk(c.rq, k) && c.rq.stop == {} && c.rq.rt == {} && c.rq.wrr != []
    requires c.rq.wrr[0] < |c.tasks|
    ensures var e := Switch(c, k, d);
            && e.rq.curr == Some(c.rq.wrr[0]) && e.rq.clock == c.rq.clock + d
            && e.rq.wrr == c.rq.wrr && e.rq.stop == {} && e.rq.rt == {}
            && |e.tasks| == |c.tasks|
            && forall x :: 0 <= x < |c.tasks| ==>
                 e.tasks[x].slice == c.tasks[x].slice && e.tasks[x].group == c.tasks[x].group
  {
    hide Placed;
    assert k.stop.None? && k.rt.None?;
    assert c.rq.wrrNr != 0;
  }

  lemma TurnedView(c: Cell, hz: nat, ev: Event, r: nat)
    requires Ready(c, r) && ev.TickAt? && Possible(c, r, ev)
    requires var e := Happen(c, hz, ev); QueueKnown(e)
    ensures var e := Happen(c, hz, ev);
            View(e.rq.wrr, e.tasks) == TickTo(View(c.rq.wrr, c.tasks), PathRefill(ev.seen, hz))
  {
    hide AddClock, TickWrr, Switch, CellInv, PathRefill, Dec;
    CellInvKnown(c, r);
    AddClockOk(c, ev.d1, r, None);
    AddClockKeeps(c, ev.d1);
    var a := AddClock(c, ev.d1);
    var refill := PathRefill(ev.seen, hz);
    TickStepInv(a, refill, r);
    TickSlices(a, refill, r);
    var (t, resched) := TickWrr(a, refill);
    WithoutHead(a.rq.wrr);
    if resched {
      WrrQueued(t, r);
      CellInvKnown(t, r);
      SwitchKeeps(t, ev.k, ev.d2, r);
    }
    HeadOnce(c, r);
    var e := Happen(c, hz, ev);
    var q := c.rq.wrr;
    assert |q| == 1 ==> q[1..] + [q[0]] == q;
    ViewTurns(q, c.tasks, e.rq.wrr, e.tasks, refill);
  }

  /** The view after a tick, from what the tick does to queue and slices. */
  lemma ViewTurns(q: seq<nat>, a: seq<Task>, q': seq<nat>, b: seq<Task>, refill: nat)
    requires q != [] && |a| == |b|
    requires forall i :: 0 <= i < |q| ==> q[i] < |a|
    requires forall i :: 0 < i < |q| ==> q[i] != q[0]
    requires var left := Dec(a[q[0]].slice);
             && q' == (if left != 0 then q else q[1..] + [q[0]])
             && b[q[0]].slice == if left != 0 then left else refill
    requires forall x :: 0 <= x < |a| ==> b[x].group == a[x].group
    requires forall x :: 0 <= x < |a| && x != q[0] ==> b[x].slice == a[x].slice
    ensures forall i :: 0 <= i < |q'| ==> q'[i] < |b|
    ensures View(q', b) == TickTo(View(q, a), refill)
  {
    hide Dec, View;
    var v, w := View(q, a), View(q', b);
    var left := Dec(a[q[0]].slice);
    var n := |q| - 1;
    if left != 0 {
      forall i | 0 < i <= n ensures w[i] == v[i] {
        assert v[i].id == q[i] && w[i].id == q[i];
      }
      SameTail(v, w, v[0].(slice := left));
    } else {
      forall i | 0 <= i < n ensures w[i] == v[i + 1] {
        assert v[i + 1].id == q[i + 1] && w[i].id == q[i + 1];
      }
      SameFront(v, w, v[0].(slice := refill));
    }
  }

  lemma SameTail(v: seq<Ent>, w: seq<Ent>, e: Ent)
    requires |v| == |w| > 0 && w[0] == e && forall i :: 0 < i < |v| ==> w[i] == v[i]
    ensures w == [e] + v[1..]
  {
  }

  lemma SameFront(v: seq<Ent>, w: seq<Ent>, e: Ent)
    requires |v| == |w| > 0 && w[|v| - 1] == e && forall i :: 0 <= i < |v| - 1 ==> w[i] == v[i + 1]
    ensures w == v[1..] + [e]
  {
  }

  lemma HeadOnce(c: Cell, r: nat)
    requires Ready(c, r)
    ensures forall i :: 0 < i < |c.rq.wrr| ==> c.rq.wrr[i] != c.rq.wrr[0]
  {
    hide Placed;
    assert Distinct(c.rq.wrr);
  }

  /** A WRR task that wakes up joins at the tail with the slice it has. */
  lemma WakeJoins(c: Cell, hz: nat, ev: Event, r: nat)
    requires Ready(c, r) && ev.WakeAt? && Possible(c, r, ev)
    ensures var e := Happen(c, hz, ev);
            && Ready(e, r)
            && View(e.rq.wrr, e.tasks)
            == View(c.rq.wrr, c.tasks) + [Ent(ev.p, c.tasks[ev.p].group, c.tasks[ev.p].slice)]
  {
    hide CellInv, Activate, View;
    var p := ev.p;
    ActivateInv(c, p, ev.d, r);
    CellInvKnown(c, r);
    ActivateKeeps(c, p, ev.d);
    var e := Happen(c, hz, ev);
    QueueKnownInv(e, r);
    var v, w := View(c.rq.wrr, c.tasks), View(e.rq.wrr, e.tasks);
    forall i | 0 <= i < |v| ensures w[i] == v[i] {
      assert v[i].id == c.rq.wrr[i] && w[i].id == c.rq.wrr[i];
    }
    assert w[|v|] == Ent(p, c.tasks[p].group, c.tasks[p].slice);
    assert w == v + [Ent(p, c.tasks[p].group, c.tasks[p].slice)];
  }

  lemma ActivateKeeps(c: Cell, p: nat, d: nat)
    requires p < |c.tasks| && c.tasks[p].cls.Wrr? && CurrKnown(c)
    ensures var e := Activate(c, p, d);
            && e.rq.wrr == c.rq.wrr + [p]
            && e.rq.stop == c.rq.stop && e.rq.rt == c.rq.rt && e.rq.curr == c.rq.curr
            && |e.tasks| == |c.tasks|
            && forall x :: 0 <= x < |c.tasks| ==>
                 e.tasks[x].slice == c.tasks[x].slice && e.tasks[x].group == c.tasks[x].group
  {
  }

  // ---- Runs ----

  predicate Can(c: Cell, r: nat, ev: Event)
  {
    CurrKnown(c) && c.rq.curr.Some? && QueueKnown(c) && Possible(c, r, ev)
  }

  function Run(c: Cell, hz: nat, r: nat, evs: seq<Event>): Cell
    decreases |evs|
  {
    if evs == [] then c
    else Run(if Can(c, r, evs[0]) then Happen(c, hz, evs[0]) else c, hz, r, evs[1..])
  }

  /** The events that happen in the run, as steps of the rotation. */
  function Trace(c: Cell, hz: nat, r: nat, evs: seq<Event>): seq<Step>
    decreases |evs|
  {
    if evs == [] then []
    else if Can(c, r, evs[0]) then Abstract(c, hz, evs[0]) + Trace(Happen(c, hz, evs[0]), hz, r, evs[1..])
    else Trace(c, hz, r, evs[1..])
  }

  /** How many ticks of the run find task `id` running. */
  function Ran(c: Cell, hz: nat, r: nat, evs: seq<Event>, id: nat): nat
    decreases |evs|
  {
    if evs == [] then 0
    else if Can(c, r, evs[0]) then
      (if evs[0].TickAt? && c.rq.curr == Some(id) then 1 else 0) + Ran(Happen(c, hz, evs[0]), hz, r, evs[1..], id)
    else Ran(c, hz, r, evs[1..], id)
  }

  /** A schedule without a tick runs the head again. */
  lemma ScheduleStays(c: Cell, hz: nat, ev: Event, r: nat)
    requires Ready(c, r) && ev.ScheduleAt? && Possible(c, r, ev)
    ensures var e := Happen(c, hz, ev);
            Ready(e, r) && View(e.rq.wrr, e.tasks) == View(c.rq.wrr, c.tasks) && e.rq.clock == c.rq.clock + ev.d
  {
    hide CellInv, Switch, View;
    WrrQueued(c, r);
    CellInvKnown(c, r);
    SwitchInv(c, ev.k, ev.d, r);
    SwitchKeeps(c, ev.k, ev.d, r);
    var e := Happen(c, hz, ev);
    QueueKnownInv(e, r);
    var v, w := View(c.rq.wrr, c.tasks), View(e.rq.wrr, e.tasks);
    forall i | 0 <= i < |v| ensures w[i] == v[i] {
      assert v[i].id == c.rq.wrr[i] && w[i].id == c.rq.wrr[i];
    }
    assert w == v;
  }

  /** Every event is its steps of the rotation. */
  lemma HappenTurns(c: Cell, hz: nat, ev: Event, r: nat, rest: seq<Step>)
    requires Ready(c, r) && Can(c, r, ev)
    ensures var e := Happen(c, hz, ev);
            && Ready(e, r)
            && Execute(View(c.rq.wrr, c.tasks), Abstract(c, hz, ev) + rest) == Execute(View(e.rq.wrr, e.tasks), rest)
  {
    hide Happen, Ready, View, TickTo, PathRefill;
    var now := Abstract(c, hz, ev);
    assert (now + rest)[|now|..] == rest;
    assert now == [] ==> now + rest == rest;
    ReadyAfter(c, hz, ev, r);
  }

  lemma ReadyQueue(c: Cell, r: nat)
    requires Ready(c, r)
    ensures QueueKnown(c) && c.rq.wrr != [] && c.rq.curr == Some(c.rq.wrr[0])
    ensures Distinct(c.rq.wrr)
  {
    hide Placed;
  }

  lemma NoSteps(q: seq<Ent>)
    ensures Execute(q, []) == q
  {
  }

  /** Every run of the class is a run of the rotation. */
  lemma {:induction false} RunRotates(c: Cell, hz: nat, r: nat, evs: seq<Event>)
    requires Ready(c, r)
    ensures var e := Run(c, hz, r, evs);
            && Ready(e, r)
            && View(e.rq.wrr, e.tasks) == Execute(View(c.rq.wrr, c.tasks), Trace(c, hz, r, evs))
    decreases |evs|
  {
    hide Happen, Ready, View, Abstract, Execute;
    ReadyQueue(c, r);
    if evs == [] {
      NoSteps(View(c.rq.wrr, c.tasks));
    } else if Can(c, r, evs[0]) {
      var next := Happen(c, hz, evs[0]);
      HappenTurns(c, hz, evs[0], r, Trace(next, hz, r, evs[1..]));
      ReadyQueue(next, r);
      RunRotates(next, hz, r, evs[1..]);
    } else {
      RunRotates(c, hz, r, evs[1..]);
    }
  }

  /** The task at position `i` runs after exactly as many ticks as the slices in front of it last, however many
      tasks wake up meanwhile and whatever the path buffer holds, and not before. */
  lemma TurnComes(c: Cell, hz: nat, r: nat, evs: seq<Event>, i: nat)
    requires Ready(c, r) && i < |c.rq.wrr|
    requires Bounded(View(c.rq.wrr, c.tasks))
    requires TickCount(Trace(c, hz, r, evs)) <= Sum(View(c.rq.wrr, c.tasks)[..i])
    ensures Run(c, hz, r, evs).rq.curr == Some(c.rq.wrr[i])
       <==> TickCount(Trace(c, hz, r, evs)) == Sum(View(c.rq.wrr, c.tasks)[..i])
  {
    hide Ready, Run, Trace, Execute, TickCount, Sum, View;
    ReadyQueue(c, r);
    RunRotates(c, hz, r, evs);
    var v := View(c.rq.wrr, c.tasks);
    var steps := Trace(c, hz, r, evs);
    var e := Run(c, hz, r, evs);
    ReadyQueue(e, r);
    var w := View(e.rq.wrr, e.tasks);
    assert v == v[..i] + [v[i]] + v[i + 1..];
    var f, b := WaitExact(v[..i], v[i], v[i + 1..], steps);
    assert w[|f|] == v[i];
    assert w[|f|].id == e.rq.wrr[|f|];
    assert w[0].id == e.rq.wrr[0];
  }

  /** Ticks that find a task running are ticks of the rotation that find it at the head. */
  lemma {:induction false} RunShares(c: Cell, hz: nat, r: nat, evs: seq<Event>, id: nat)
    requires Ready(c, r)
    ensures QueueKnown(c)
    ensures Ran(c, hz, r, evs, id) == HeadCount(View(c.rq.wrr, c.tasks), Trace(c, hz, r, evs), id)
    decreases |evs|
  {
    hide Happen, Ready, View, TickTo, PathRefill;
    ReadyQueue(c, r);
    if evs == [] {
    } else if Can(c, r, evs[0]) {
      var next := Happen(c, hz, evs[0]);
      var now := Abstract(c, hz, evs[0]);
      var rest := Trace(next, hz, r, evs[1..]);
      assert Trace(c, hz, r, evs) == now + rest && (now + rest)[|now|..] == rest;
      ReadyAfter(c, hz, evs[0], r);
      RunShares(next, hz, r, evs[1..], id);
    } else {
      RunShares(c, hz, r, evs[1..], id);
    }
  }

  /** After an event the head runs again, and the queue is what the event's steps make of it. */
  lemma ReadyAfter(c: Cell, hz: nat, ev: Event, r: nat)
    requires Ready(c, r) && Can(c, r, ev)
    ensures Ready(Happen(c, hz, ev), r)
    ensures var e, now := Happen(c, hz, ev), Abstract(c, hz, ev);
            View(e.rq.wrr, e.tasks) ==
            if now == [] then View(c.rq.wrr, c.tasks) else Apply(View(c.rq.wrr, c.tasks), now[0])
    ensures View(c.rq.wrr, c.tasks) != [] && c.rq.curr == Some(View(c.rq.wrr, c.tasks)[0].id)
  {
    hide Happen, Ready, View, TickTo, PathRefill, Possible;
    ReadyQueue(c, r);
    assert View(c.rq.wrr, c.tasks)[0].id == c.rq.wrr[0];
    match ev
    case TickAt(_, _, _, _) =>
      TickTurns(c, hz, ev, r);
    case WakeAt(_, _) =>
      WakeAfter(c, hz, ev, r);
    case ScheduleAt(_, _) =>
      ScheduleStays(c, hz, ev, r);
  }

  lemma WakeAfter(c: Cell, hz: nat, ev: Event, r: nat)
    requires Ready(c, r) && ev.WakeAt? && Possible(c, r, ev)
    ensures Ready(Happen(c, hz, ev), r)
    ensures var e := Happen(c, hz, ev);
            View(e.rq.wrr, e.tasks) == Apply(View(c.rq.wrr, c.tasks), Abstract(c, hz, ev)[0])
  {
    hide Happen, Ready, View;
    WakeJoins(c, hz, ev, r);
  }

  /** Whenever a slice runs out, the path buffer answers as the running task's own path would. */
  predicate OwnPaths(c: Cell, hz: nat, r: nat, evs: seq<Event>)
    decreases |evs|
  {
    evs != [] ==>
      if Can(c, r, evs[0]) then
        && (evs[0].TickAt? && Dec(c.tasks[c.rq.curr.value].slice) == 0 ==>
              Answers(evs[0].seen, c.tasks[c.rq.curr.value].group))
        && OwnPaths(Happen(c, hz, evs[0]), hz, r, evs[1..])
      else OwnPaths(c, hz, r, evs[1..])
  }

  /** Then every refill is the running task's own. */
  lemma {:induction false} OwnPathsRefill(c: Cell, hz: nat, r: nat, evs: seq<Event>)
    requires Ready(c, r) && OwnPaths(c, hz, r, evs)
    ensures QueueKnown(c)
    ensures OwnRefills(View(c.rq.wrr, c.tasks), hz, Trace(c, hz, r, evs))
    decreases |evs|
  {
    hide Happen, Ready, View, TickTo, PathRefill, Refill, Dec, Answers;
    ReadyQueue(c, r);
    if evs == [] {
    } else if Can(c, r, evs[0]) {
      var next := Happen(c, hz, evs[0]);
      var now := Abstract(c, hz, evs[0]);
      var rest := Trace(next, hz, r, evs[1..]);
      assert Trace(c, hz, r, evs) == now + rest && (now + rest)[|now|..] == rest;
      ReadyAfter(c, hz, evs[0], r);
      OwnPathsRefill(next, hz, r, evs[1..]);
      var v := View(c.rq.wrr, c.tasks);
      assert v[0].id == c.rq.wrr[0] && v[0].group == c.tasks[v[0].id].group && v[0].slice == c.tasks[v[0].id].slice;
      if evs[0].TickAt? {
        PathRefillIff(evs[0].seen, v[0].group, hz);
      } else if now == [] {
        assert now + rest == rest;
      }
    } else {
      OwnPathsRefill(c, hz, r, evs[1..]);
    }
  }

  /** Over `k` whole rotations from full slices, with every refill answered on the task's own path, the queue is where
      it was, and every task has run for exactly `k` times its group's slice. */
  lemma RotationShares(c: Cell, hz: nat, r: nat, evs: seq<Event>, k: nat, i: nat)
    requires Ready(c, r) && i < |c.rq.wrr|
    requires Bounded(View(c.rq.wrr, c.tasks)) && Fresh(View(c.rq.wrr, c.tasks), hz)
    requires OnlyTicks(Trace(c, hz, r, evs)) && |Trace(c, hz, r, evs)| == k * Sum(View(c.rq.wrr, c.tasks))
    requires OwnPaths(c, hz, r, evs)
    ensures var e := Run(c, hz, r, evs);
            e.rq.wrr == c.rq.wrr && QueueKnown(e) && View(e.rq.wrr, e.tasks) == View(c.rq.wrr, c.tasks)
    ensures c.rq.wrr[i] < |c.tasks|
    ensures Ran(c, hz, r, evs, c.rq.wrr[i]) == k * Lasts(Refill(c.tasks[c.rq.wrr[i]].group, hz))
  {
    hide Ready, Run, Trace, Execute, Ran, Share, Ticks, Sum, View, Refill, Lasts, OwnPaths, OwnRefills, HeadCount;
    ReadyQueue(c, r);
    var v := View(c.rq.wrr, c.tasks);
    var p := c.rq.wrr[i];
    assert v[i].id == p && v[i].group == c.tasks[p].group;
    assert Ids(v) == c.rq.wrr;
    Rotations(v, hz, k, i);
    OwnPathsRefill(c, hz, r, evs);
    OwnRun(v, hz, Trace(c, hz, r, evs), p);
    RunShares(c, hz, r, evs, p);
    RunRotates(c, hz, r, evs);
    var e := Run(c, hz, r, evs);
    ReadyQueue(e, r);
    assert Ids(View(e.rq.wrr, e.tasks)) == e.rq.wrr;
  }

  /** Over every run in which only tasks of the two named groups with slices within bounds wake up and refills are
      answered on the own path, every queued task keeps a slice between one and its group's. */
  lemma RunKeepsSlices(c: Cell, hz: nat, r: nat, evs: seq<Event>)
    requires Ready(c, r) && hz >= 100 && OwnPaths(c, hz, r, evs)
    requires forall e :: e in View(c.rq.wrr, c.tasks) ==> InBounds(e, hz)
    requires forall i :: 0 <= i < |Trace(c, hz, r, evs)| && Trace(c, hz, r, evs)[i].Join? ==>
               InBounds(Trace(c, hz, r, evs)[i].ent, hz)
    ensures var e := Run(c, hz, r, evs);
            QueueKnown(e) && forall x :: x in View(e.rq.wrr, e.tasks) ==> InBounds(x, hz)
  {
    hide Ready, Run, Trace, Execute, View, InBounds, OwnPaths, OwnRefills;
    ReadyQueue(c, r);
    OwnPathsRefill(c, hz, r, evs);
    RunRotates(c, hz, r, evs);
    ReadyQueue(Run(c, hz, r, evs), r);
    RunKeepsBounds(View(c.rq.wrr, c.tasks), hz, Trace(c, hz, r, evs));
  }
}
