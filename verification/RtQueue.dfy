/**
 One RT run queue (`struct rt_rq`): a priority array of entity lists with a bitmap,
 counters and a cached best priority, all of which every insertion and removal must
 keep in step.
 */
module RtQueue {
  import opened Basics

  /** A schedulable entity (`struct sched_rt_entity`): a task, or the entity of a non-root group. */
  datatype Entity = Task(id: nat) | Group(path: Path)

  /** What an entity looks like to the queue that holds it. */
  datatype Attr = Attr(prio: int, boosted: bool)

  datatype RtRq = RtRq(
    queue: seq<seq<Entity>>,
    bitmap: seq<bool>,
    nrRunning: int,
    highest: int,
    nrBoosted: int,
    throttled: bool,
    onLeafList: bool)

  /** `init_rt_rq`: every list empty, only the delimiter bit set. */
  function EmptyRq(): (r: RtRq)
  {
    RtRq(seq(MAX_RT_PRIO, _ => []), seq(MAX_RT_PRIO, _ => false) + [true], 0, MAX_RT_PRIO, 0, false, false)
  }

  /** `sched_find_first_bit`, from position i on. */
  function FirstBit(bitmap: seq<bool>, i: nat): (k: nat)
    requires i <= |bitmap|
    ensures i <= k <= |bitmap|
    ensures k < |bitmap| ==> bitmap[k]
    ensures forall j :: i <= j < k ==> !bitmap[j]
    decreases |bitmap| - i
  {
    if i == |bitmap| || bitmap[i] then i else FirstBit(bitmap, i + 1)
  }

  /** `list_del_init`: the node leaves whichever list it is linked on. */
  function Unlink(queue: seq<seq<Entity>>, e: Entity): seq<seq<Entity>>
  {
    seq(|queue|, i requires 0 <= i < |queue| => Without(queue[i], e))
  }

  /** `on_rt_rq`: the entity's list node is linked somewhere in this queue. */
  predicate Holds(r: RtRq, e: Entity)
  {
    exists i :: 0 <= i < |r.queue| && e in r.queue[i]
  }

  predicate EffThrottled(r: RtRq)
  {
    r.throttled && r.nrBoosted == 0
  }

  predicate ArrayShape(r: RtRq)
  {
    |r.queue| == MAX_RT_PRIO && |r.bitmap| == MAX_RT_PRIO + 1
  }

  /** The second half of `__enqueue_rt_entity`, with `inc_rt_tasks`. */
  function Push(r: RtRq, e: Entity, a: Attr, head: bool): RtRq
    requires ArrayShape(r) && 0 <= a.prio < MAX_RT_PRIO
  {
    r.(queue := r.queue[a.prio := Link(r.queue[a.prio], e, head)],
       bitmap := r.bitmap[a.prio := true],
       nrRunning := r.nrRunning + 1,
       highest := if a.prio < r.highest then a.prio else r.highest,
       nrBoosted := if a.boosted then r.nrBoosted + 1 else r.nrBoosted,
       onLeafList := if r.nrRunning == 0 then true else r.onLeafList)
  }

  /** `__dequeue_rt_entity` with `dec_rt_tasks`. */
  function Pull(r: RtRq, e: Entity, a: Attr): RtRq
    requires ArrayShape(r) && 0 <= a.prio < MAX_RT_PRIO
  {
    var queue := Unlink(r.queue, e);
    var bitmap := if queue[a.prio] == [] then r.bitmap[a.prio := false] else r.bitmap;
    var n := r.nrRunning - 1;
    r.(queue := queue,
       bitmap := bitmap,
       nrRunning := n,
       highest := if n == 0 then MAX_RT_PRIO else if a.prio == r.highest then FirstBit(bitmap, 0) else r.highest,
       nrBoosted := if a.boosted then r.nrBoosted - 1 else r.nrBoosted,
       onLeafList := if n == 0 then false else r.onLeafList)
  }

  /** `requeue_rt_entity`: `list_move` to one end of the list of the entity's priority. */
  function Requeue(r: RtRq, e: Entity, a: Attr, head: bool): RtRq
    requires ArrayShape(r) && 0 <= a.prio < MAX_RT_PRIO
  {
    var queue := Unlink(r.queue, e);
    r.(queue := queue[a.prio := Link(queue[a.prio], e, head)])
  }

  // ----- the invariant of one queue, relative to the attributes of what it holds

  function Total(queue: seq<seq<Entity>>, n: nat): (t: nat)
    requires n <= |queue|
  {
    if n == 0 then 0 else Total(queue, n - 1) + |queue[n - 1]|
  }

  function BoostedIn(q: seq<Entity>, attr: Entity -> Attr): (k: nat)
  {
    if q == [] then 0 else (if attr(q[0]).boosted then 1 else 0) + BoostedIn(q[1..], attr)
  }

  function BoostedTotal(queue: seq<seq<Entity>>, attr: Entity -> Attr, n: nat): (k: nat)
    requires n <= |queue|
  {
    if n == 0 then 0 else BoostedTotal(queue, attr, n - 1) + BoostedIn(queue[n - 1], attr)
  }

  /** Every entity sits, once, in the list of its own priority. */
  ghost predicate Sorted(r: RtRq, attr: Entity -> Attr)
  {
    forall i :: 0 <= i < |r.queue| ==>
      Distinct(r.queue[i]) && forall e :: e in r.queue[i] ==> attr(e).prio == i
  }

  ghost predicate BitsOk(r: RtRq)
    requires ArrayShape(r)
  {
    && r.bitmap[MAX_RT_PRIO]
    && forall i :: 0 <= i < MAX_RT_PRIO ==> (r.bitmap[i] <==> r.queue[i] != [])
  }

  ghost predicate RqOk(r: RtRq, attr: Entity -> Attr)
  {
    && ArrayShape(r)
    && BitsOk(r)
    && Sorted(r, attr)
    && r.nrRunning == Total(r.queue, MAX_RT_PRIO)
    && r.nrBoosted == BoostedTotal(r.queue, attr, MAX_RT_PRIO)
    && r.highest == FirstBit(r.bitmap, 0)
    && (r.onLeafList <==> r.nrRunning > 0)
  }

  // ----- lists

  lemma {:induction false} WithoutPresent(q: seq<Entity>, e: Entity, attr: Entity -> Attr)
    requires e in q && Distinct(q)
    ensures Distinct(Without(q, e)) && |Without(q, e)| == |q| - 1
    ensures forall x :: x in Without(q, e) <==> x in q && x != e
    ensures BoostedIn(Without(q, e), attr) == BoostedIn(q, attr) - (if attr(e).boosted then 1 else 0)
  {
    if q[0] == e {
      assert forall x :: x in q <==> x == q[0] || x in q[1..];
    } else {
      var t := q[1..];
      assert e in t;
      WithoutPresent(t, e, attr);
      var w := Without(q, e);
      assert w == [q[0]] + Without(t, e) && w[1..] == Without(t, e);
      assert forall x :: x in q <==> x == q[0] || x in t;
      assert q[0] !in t;
    }
  }

  lemma {:induction false} BoostedInAppend(q: seq<Entity>, e: Entity, attr: Entity -> Attr)
    ensures BoostedIn(q + [e], attr) == BoostedIn(q, attr) + (if attr(e).boosted then 1 else 0)
  {
    if q == [] {
      assert q + [e] == [e];
    } else {
      assert (q + [e])[1..] == q[1..] + [e];
      BoostedInAppend(q[1..], e, attr);
    }
  }

  lemma LinkFacts(q: seq<Entity>, e: Entity, head: bool, attr: Entity -> Attr)
    requires e !in q && Distinct(q)
    ensures Distinct(Link(q, e, head)) && |Link(q, e, head)| == |q| + 1
    ensures forall x :: x in Link(q, e, head) <==> x in q || x == e
    ensures BoostedIn(Link(q, e, head), attr) == BoostedIn(q, attr) + (if attr(e).boosted then 1 else 0)
  {
    BoostedInAppend(q, e, attr);
    assert ([e] + q)[1..] == q;
  }

  lemma {:induction false} BoostedInFrame(q: seq<Entity>, f: Entity -> Attr, g: Entity -> Attr)
    requires forall e :: e in q ==> f(e) == g(e)
    ensures BoostedIn(q, f) == BoostedIn(q, g)
  {
    if q != [] {
      BoostedInFrame(q[1..], f, g);
    }
  }

  // ----- sums over the array

  lemma {:induction false} TotalsUpdate(queue: seq<seq<Entity>>, i: nat, q: seq<Entity>, attr: Entity -> Attr, n: nat)
    requires i < |queue| && n <= |queue|
    ensures Total(queue[i := q], n) == Total(queue, n) + (if i < n then |q| - |queue[i]| else 0)
    ensures BoostedTotal(queue[i := q], attr, n)
         == BoostedTotal(queue, attr, n) + (if i < n then BoostedIn(q, attr) - BoostedIn(queue[i], attr) else 0)
  {
    if n > 0 {
      TotalsUpdate(queue, i, q, attr, n - 1);
    }
  }

  lemma {:induction false} TotalZero(queue: seq<seq<Entity>>, n: nat)
    requires n <= |queue|
    ensures Total(queue, n) == 0 <==> forall i :: 0 <= i < n ==> queue[i] == []
  {
    if n > 0 {
      TotalZero(queue, n - 1);
    }
  }

  lemma {:induction false} BoostedTotalFrame(queue: seq<seq<Entity>>, f: Entity -> Attr, g: Entity -> Attr, n: nat)
    requires n <= |queue|
    requires forall i, e :: 0 <= i < n && e in queue[i] ==> f(e) == g(e)
    ensures BoostedTotal(queue, f, n) == BoostedTotal(queue, g, n)
  {
    if n > 0 {
      BoostedTotalFrame(queue, f, g, n - 1);
      BoostedInFrame(queue[n - 1], f, g);
    }
  }

  // ----- what the invariant says, and what keeps it

  /** The least set bit is unique. */
  lemma FirstBitIs(bitmap: seq<bool>, k: nat)
    requires k < |bitmap| && bitmap[k] && forall j :: 0 <= j < k ==> !bitmap[j]
    ensures FirstBit(bitmap, 0) == k
  {
  }

  /** The cached priority is that of the best queued entity; it is MAX_RT_PRIO exactly when nothing is queued. */
  lemma HighestMeaning(r: RtRq, attr: Entity -> Attr)
    requires RqOk(r, attr)
    ensures 0 <= r.highest <= MAX_RT_PRIO && r.nrRunning >= 0
    ensures r.highest < MAX_RT_PRIO <==> r.nrRunning > 0
    ensures r.highest < MAX_RT_PRIO ==> r.queue[r.highest] != []
    ensures forall e :: Holds(r, e) ==> r.highest <= attr(e).prio
    ensures r.nrRunning == 0 ==> forall e :: !Holds(r, e)
  {
    TotalZero(r.queue, MAX_RT_PRIO);
    if r.highest == MAX_RT_PRIO {
      assert forall i :: 0 <= i < MAX_RT_PRIO ==> !r.bitmap[i];
    }
  }

  /** An entity that is queued is in exactly the list of its priority. */
  lemma HoldsWhere(r: RtRq, e: Entity, attr: Entity -> Attr)
    requires RqOk(r, attr)
    ensures Holds(r, e) <==> 0 <= attr(e).prio < MAX_RT_PRIO && e in r.queue[attr(e).prio]
    ensures forall i :: 0 <= i < |r.queue| && i != attr(e).prio ==> e !in r.queue[i]
  {
  }

  lemma UnlinkWhere(r: RtRq, e: Entity, attr: Entity -> Attr)
    requires RqOk(r, attr) && Holds(r, e)
    ensures 0 <= attr(e).prio < MAX_RT_PRIO
    ensures Unlink(r.queue, e) == r.queue[attr(e).prio := Without(r.queue[attr(e).prio], e)]
  {
    HoldsWhere(r, e, attr);
    forall i | 0 <= i < |r.queue| && i != attr(e).prio
      ensures Without(r.queue[i], e) == r.queue[i]
    {
      WithoutOk(r.queue[i], e);
    }
  }

  lemma PushOk(r: RtRq, e: Entity, attr: Entity -> Attr, head: bool)
    requires RqOk(r, attr) && !Holds(r, e) && 0 <= attr(e).prio < MAX_RT_PRIO
    ensures RqOk(Push(r, e, attr(e), head), attr) && Push(r, e, attr(e), head).throttled == r.throttled
    ensures forall x :: Holds(Push(r, e, attr(e), head), x) <==> Holds(r, x) || x == e
  {
    hide Distinct, FirstBit, BoostedIn, Total, BoostedTotal, Link;
    var a := attr(e);
    var s := Push(r, e, a, head);
    HoldsWhere(r, e, attr);
    LinkFacts(r.queue[a.prio], e, head, attr);
    TotalsUpdate(r.queue, a.prio, s.queue[a.prio], attr, MAX_RT_PRIO);
    FirstBitIs(s.bitmap, s.highest);
    assert s.queue[a.prio] != [];
    forall x
      ensures Holds(s, x) <==> Holds(r, x) || x == e
    {
      if Holds(r, x) {
        var i :| 0 <= i < |r.queue| && x in r.queue[i];
        assert x in s.queue[i];
      }
      assert e in s.queue[a.prio];
    }
  }

  /** The lists after an insertion. */
  lemma PushPlaces(r: RtRq, e: Entity, a: Attr, head: bool)
    requires ArrayShape(r) && 0 <= a.prio < MAX_RT_PRIO
    ensures var s := Push(r, e, a, head);
            && |s.queue| == |r.queue|
            && s.queue[a.prio] == (if head then [e] + r.queue[a.prio] else r.queue[a.prio] + [e])
            && forall i :: 0 <= i < |r.queue| && i != a.prio ==> s.queue[i] == r.queue[i]
  {
  }

  /** The lists after a removal. */
  lemma PullLists(r: RtRq, e: Entity, attr: Entity -> Attr)
    requires RqOk(r, attr) && Holds(r, e)
    ensures 0 <= attr(e).prio < MAX_RT_PRIO && e in r.queue[attr(e).prio]
    ensures var p := attr(e).prio;
            var w := Without(r.queue[p], e);
            && Unlink(r.queue, e) == r.queue[p := w]
            && Distinct(w) && |w| == |r.queue[p]| - 1
            && (forall x :: x in w <==> x in r.queue[p] && x != e)
            && BoostedIn(w, attr) == BoostedIn(r.queue[p], attr) - (if attr(e).boosted then 1 else 0)
  {
    hide Distinct, Without, Unlink, BoostedIn;
    HoldsWhere(r, e, attr);
    UnlinkWhere(r, e, attr);
    SortedAt(r, attr, attr(e).prio);
    WithoutPresent(r.queue[attr(e).prio], e, attr);
  }

  lemma SortedAt(r: RtRq, attr: Entity -> Attr, i: nat)
    requires Sorted(r, attr) && i < |r.queue|
    ensures Distinct(r.queue[i]) && forall e :: e in r.queue[i] ==> attr(e).prio == i
  {
  }

  lemma PullHolds(r: RtRq, e: Entity, attr: Entity -> Attr)
    requires RqOk(r, attr) && Holds(r, e)
    ensures 0 <= attr(e).prio < MAX_RT_PRIO
    ensures Sorted(Pull(r, e, attr(e)), attr)
    ensures forall x :: Holds(Pull(r, e, attr(e)), x) <==> Holds(r, x) && x != e
  {
    hide Distinct, Without, Unlink, FirstBit, Total, BoostedTotal;
    PullLists(r, e, attr);
    var s := Pull(r, e, attr(e));
    forall x
      ensures Holds(s, x) <==> Holds(r, x) && x != e
    {
      if Holds(r, x) && x != e {
        var i :| 0 <= i < |r.queue| && x in r.queue[i];
        assert x in s.queue[i];
      }
    }
  }

  lemma PullBits(r: RtRq, e: Entity, attr: Entity -> Attr)
    requires RqOk(r, attr) && Holds(r, e)
    ensures 0 <= attr(e).prio < MAX_RT_PRIO
    ensures var s := Pull(r, e, attr(e));
            && BitsOk(s)
            && s.nrRunning == Total(s.queue, MAX_RT_PRIO)
            && s.nrBoosted == BoostedTotal(s.queue, attr, MAX_RT_PRIO)
            && s.highest == FirstBit(s.bitmap, 0)
            && (s.onLeafList <==> s.nrRunning > 0)
  {
    hide Distinct, Without, Unlink, FirstBit, Total, BoostedTotal, Sorted, BoostedIn, Holds;
    PullLists(r, e, attr);
    var a, s := attr(e), Pull(r, e, attr(e));
    TotalsUpdate(r.queue, a.prio, s.queue[a.prio], attr, MAX_RT_PRIO);
    TotalZero(s.queue, MAX_RT_PRIO);
    assert BitsOk(s);
    if s.nrRunning == 0 {
      FirstBitIs(s.bitmap, MAX_RT_PRIO);
    } else if a.prio != r.highest {
      FirstBitIs(s.bitmap, r.highest);
    }
  }

  lemma PullOk(r: RtRq, e: Entity, attr: Entity -> Attr)
    requires RqOk(r, attr) && Holds(r, e)
    ensures 0 <= attr(e).prio < MAX_RT_PRIO
    ensures RqOk(Pull(r, e, attr(e)), attr) && Pull(r, e, attr(e)).throttled == r.throttled
    ensures forall x :: Holds(Pull(r, e, attr(e)), x) <==> Holds(r, x) && x != e
  {
    hide Distinct, Without, FirstBit, Total, BoostedTotal, Sorted, Holds, BitsOk;
    PullHolds(r, e, attr);
    PullBits(r, e, attr);
  }

  lemma RequeueOk(r: RtRq, e: Entity, attr: Entity -> Attr, head: bool)
    requires RqOk(r, attr) && Holds(r, e)
    ensures 0 <= attr(e).prio < MAX_RT_PRIO
    ensures RqOk(Requeue(r, e, attr(e), head), attr)
    ensures Requeue(r, e, attr(e), head) == r.(queue := Requeue(r, e, attr(e), head).queue)
    ensures forall x :: Holds(Requeue(r, e, attr(e), head), x) <==> Holds(r, x)
  {
    hide Distinct, FirstBit, BoostedIn, Total, BoostedTotal, Link, Without, Unlink;
    var p := attr(e).prio;
    PullLists(r, e, attr);
    var w := Without(r.queue[p], e);
    var s := Requeue(r, e, attr(e), head);
    assert s.queue == r.queue[p := Link(w, e, head)];
    LinkFacts(w, e, head, attr);
    TotalsUpdate(r.queue, p, s.queue[p], attr, MAX_RT_PRIO);
    forall x
      ensures Holds(s, x) <==> Holds(r, x)
    {
      if Holds(r, x) {
        var i :| 0 <= i < |r.queue| && x in r.queue[i];
        assert x in s.queue[i];
      }
    }
  }

  /** The invariant only looks at the attributes of entities that are queued. */
  lemma RqOkFrame(r: RtRq, f: Entity -> Attr, g: Entity -> Attr)
    requires RqOk(r, f)
    requires forall e :: Holds(r, e) ==> f(e) == g(e)
    ensures RqOk(r, g)
  {
    assert forall i, e :: 0 <= i < |r.queue| && e in r.queue[i] ==> Holds(r, e);
    BoostedTotalFrame(r.queue, f, g, MAX_RT_PRIO);
  }

  lemma FlagRqOk(r: RtRq, attr: Entity -> Attr, b: bool)
    requires RqOk(r, attr)
    ensures RqOk(r.(throttled := b), attr)
    ensures forall e :: Holds(r.(throttled := b), e) <==> Holds(r, e)
  {
  }

  lemma EmptyRqOk(attr: Entity -> Attr)
    ensures RqOk(EmptyRq(), attr) && EmptyRq().nrRunning == 0
    ensures forall e :: !Holds(EmptyRq(), e)
  {
    var r := EmptyRq();
    TotalZero(r.queue, MAX_RT_PRIO);
    EmptyBoosted(r.queue, attr, MAX_RT_PRIO);
    FirstBitIs(r.bitmap, MAX_RT_PRIO);
  }

  lemma {:induction false} EmptyBoosted(queue: seq<seq<Entity>>, attr: Entity -> Attr, n: nat)
    requires n <= |queue| && forall i :: 0 <= i < n ==> queue[i] == []
    ensures BoostedTotal(queue, attr, n) == 0
  {
    if n > 0 {
      EmptyBoosted(queue, attr, n - 1);
    }
  }
}
