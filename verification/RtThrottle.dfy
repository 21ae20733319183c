/**
 Throttling of one run queue with a fixed budget: charge, throttle, and the period timer that pays the debt back.
 */
module RtThrottle {
  import opened Basics
  import RtBandwidth

  /** One `rt_rq` with its budget, and the books kept beside it: RT time ever charged, time ever drained by the
      timer, and periods the timer has accounted for. */
  datatype Queue = Queue(
    runtime: nat,
    period: nat,
    time: nat,
    throttled: bool,
    nrRunning: nat,
    nrBoosted: nat,
    charged: nat,
    drained: nat,
    periods: nat)

  datatype Step =
    | Charge(delta: nat)
    | Timer(overrun: nat)
    | SetRunning(n: nat, boosted: nat)

  function Min(a: nat, b: nat): nat
  {
    if a <= b then a else b
  }

  /** The budget loop of `update_curr_rt` with `sched_rt_runtime_exceeded`, without sharing. */
  function AddCharge(q: Queue, delta: nat): Queue
  {
    var r := q.(time := q.time + delta, charged := q.charged + delta);
    if q.throttled || q.runtime >= q.period || r.time <= q.runtime then r
    else if q.runtime != 0 then r.(throttled := true)
    else r.(time := 0, drained := r.drained + r.time)
  }

  /** `do_sched_rt_period_timer` on one queue; the flag is its `idle` answer. */
  function Period(q: Queue, overrun: nat): (Queue, bool)
  {
    if q.time != 0 then
      var paid := Min(q.time, Product(overrun, q.runtime));
      var r := q.(time := q.time - paid, drained := q.drained + paid, periods := q.periods + overrun);
      var s := r.(throttled := if q.throttled && r.time < q.runtime then false else q.throttled);
      (s, s.time == 0 && s.nrRunning == 0)
    else (q.(periods := q.periods + overrun), q.nrRunning == 0)
  }

  function Next(q: Queue, step: Step): Queue
  {
    match step
    case Charge(delta) => AddCharge(q, delta)
    case Timer(overrun) => Period(q, overrun).0
    case SetRunning(n, boosted) => q.(nrRunning := n, nrBoosted := boosted)
  }

  /** A budget that can throttle: positive and less than the period. */
  predicate Limited(q: Queue)
  {
    0 < q.runtime < q.period
  }

  ghost predicate Inv(q: Queue)
  {
    && Limited(q)
    && (!q.throttled ==> q.time <= q.runtime)
    && (q.throttled ==> q.time >= q.runtime)
    && q.charged == q.time + q.drained
    && q.drained <= Product(q.periods, q.runtime)
  }

  lemma NextOk(q: Queue, step: Step)
    requires Inv(q)
    ensures Inv(Next(q, step)) && Next(q, step).runtime == q.runtime && Next(q, step).period == q.period
    ensures step.SetRunning? ==> Next(q, step) == q.(nrRunning := step.n, nrBoosted := step.boosted)
  {
    hide Product;
    if step.Timer? {
      ProductLaws(q.periods, step.overrun, q.runtime);
    }
  }

  /** A charge exactly: a limiting budget is throttled if and only if it was or has now been overrun, and all of the
      charge is owed; where there is no runtime at all an overrun is dropped instead, and a budget of the whole period
      or more is never overrun. */
  lemma ChargeExact(q: Queue, delta: nat, r: Queue)
    requires r == Next(q, Charge(delta))
    ensures r == q.(time := r.time, throttled := r.throttled, charged := q.charged + delta, drained := r.drained)
    ensures Limited(q) || q.throttled || q.runtime >= q.period ==>
      r.time == q.time + delta && r.drained == q.drained
    ensures r.throttled <==> q.throttled || (Limited(q) && q.time + delta > q.runtime)
    ensures q.runtime == 0 < q.period && !q.throttled ==> r.time == 0 && r.drained == q.drained + q.time + delta
  {
  }

  /** A timer pass exactly: what `overrun` budgets cover is paid, the throttle is lifted if and only if there was a debt
      and less than one budget of it is left, and the answer is idle if and only if nothing is owed or queued. */
  lemma PeriodExact(q: Queue, overrun: nat, r: Queue, idle: bool)
    requires (r, idle) == Period(q, overrun)
    ensures var left := q.time - Product(overrun, q.runtime);
            r.time == if left <= 0 then 0 else left
    ensures r == q.(time := r.time, throttled := r.throttled, drained := q.drained + (q.time - r.time),
                    periods := q.periods + overrun)
    ensures r.throttled <==> q.throttled && (q.time == 0 || r.time >= q.runtime)
    ensures idle <==> r.time == 0 && q.nrRunning == 0
  {
    hide Product;
  }

  function Execute(q: Queue, steps: seq<Step>): Queue
    decreases |steps|
  {
    if steps == [] then q else Execute(Next(q, steps[0]), steps[1..])
  }

  lemma {:induction false} ExecuteOk(q: Queue, steps: seq<Step>)
    requires Inv(q)
    ensures Inv(Execute(q, steps)) && Execute(q, steps).runtime == q.runtime
    decreases |steps|
  {
    hide Inv, Next;
    if steps != [] {
      NextOk(q, steps[0]);
      ExecuteOk(Next(q, steps[0]), steps[1..]);
    }
  }

  /** `init_rt_rq` under a limiting budget. */
  function Fresh(runtime: nat, period: nat): Queue
  {
    Queue(runtime, period, 0, false, 0, 0, 0, 0, 0)
  }

  /** Over every run: the time charged is the debt plus what was drained, and a queue that is not throttled has
      used at most its budget since the last drain, hence at most K + 1 budgets over K accounted periods. */
  lemma EveryRun(runtime: nat, period: nat, steps: seq<Step>, q: Queue)
    requires 0 < runtime < period && q == Execute(Fresh(runtime, period), steps)
    ensures q.charged == q.time + q.drained
    ensures !q.throttled ==> q.time <= runtime
    ensures !q.throttled ==> q.charged <= Product(q.periods + 1, runtime)
  {
    assert Inv(Fresh(runtime, period));
    hide Execute, Product;
    ExecuteOk(Fresh(runtime, period), steps);
    ProductLaws(q.periods, 1, runtime);
  }

  /** n timer ticks of one period each, with no charge in between. */
  function Wait(q: Queue, n: nat): Queue
  {
    if n == 0 then q else Period(Wait(q, n - 1), 1).0
  }

  /** While the queue stays throttled the debt falls by one budget per period, exactly. */
  lemma {:induction false} WaitOk(q: Queue, n: nat)
    requires Inv(q) && q.throttled
    ensures Inv(Wait(q, n)) && Wait(q, n).runtime == q.runtime
    ensures Wait(q, n).throttled ==> Wait(q, n).time + Product(n, q.runtime) == q.time
    ensures !Wait(q, n).throttled ==> n > 0
  {
    if n > 0 {
      hide Product;
      WaitOk(q, n - 1);
      NextOk(Wait(q, n - 1), Timer(1));
      ProductLaws(n - 1, 1, q.runtime);
    }
  }

  /** A throttled queue that is charged no more is released within floor(debt / budget) periods. */
  lemma ReleasedInTime(q: Queue, n: nat)
    requires Inv(q) && q.throttled && n == q.time / q.runtime
    ensures !Wait(q, n).throttled
  {
    WaitOk(q, n);
    Floor(q.time, q.runtime, n);
    hide Product, Wait;
  }

  lemma Floor(a: nat, d: nat, n: nat)
    requires d > 0 && n == a / d
    ensures Product(n, d) <= a < Product(n, d) + d
  {
  }

  /** ... and not one period earlier: it stays throttled while a whole budget of debt is left. */
  lemma {:induction false} NotReleasedEarly(q: Queue, n: nat)
    requires Inv(q) && q.throttled && q.time >= Product(n, q.runtime) + q.runtime
    ensures Wait(q, n).throttled
    decreases n
  {
    hide Product, Inv;
    if n > 0 {
      var w := Wait(q, n - 1);
      ProductLaws(n - 1, 1, q.runtime);
      NotReleasedEarly(q, n - 1);
      WaitOk(q, n - 1);
      assert w.time >= q.runtime + q.runtime;
      StaysThrottled(w);
    }
  }

  lemma StaysThrottled(w: Queue)
    requires w.throttled && w.time >= w.runtime + w.runtime
    ensures Period(w, 1).0.throttled
  {
    ProductLaws(0, 1, w.runtime);
  }

  /** The timer answers idle, and so stops, only when the queue is not throttled. */
  lemma TimerStaysOn(q: Queue, overrun: nat)
    requires Inv(q) && Period(q, overrun).0.throttled
    ensures !Period(q, overrun).1
  {
    NextOk(q, Timer(overrun));
  }

  // ----- the same queue among the queues of a span

  /** The queue as the only one of its span. */
  function Alone(q: Queue): seq<RtBandwidth.BwRq>
  {
    [RtBandwidth.BwRq(RtBandwidth.Fin(q.runtime), q.time, q.throttled)]
  }

  /** With nobody to borrow from, charging and the timer of a span of queues are those of this one. */
  lemma AloneIs(q: Queue, delta: nat, overrun: nat)
    ensures RtBandwidth.Charged(Alone(q), 0, delta, RtBandwidth.Fin(q.runtime), q.period) == Alone(AddCharge(q, delta))
    ensures RtBandwidth.TimerOn(Alone(q), 0, overrun, q.period) == Alone(Period(q, overrun).0)
  {
    hide Product;
    NobodyLends(q.(time := q.time + delta));
    NobodyLends(q);
    var a := Alone(q)[0 := Alone(q)[0].(time := q.time + delta)];
    assert a == Alone(q.(time := q.time + delta));
  }

  lemma NobodyLends(q: Queue)
    ensures RtBandwidth.BalanceRuntime(Alone(q), 0, q.period) == Alone(q)
  {
    assert RtBandwidth.BalanceFrom(Alone(q), 0, 1, q.period, false) == (Alone(q), false);
  }

  /** The queue as rt.c updates it. */
  class ThrottledRq {
    var rtRuntime: nat
    var rtPeriod: nat
    var rtTime: nat
    var rtThrottled: bool
    var rtNrRunning: nat
    var rtNrBoosted: nat
    var charged: nat
    var drained: nat
    var periods: nat

    ghost function State(): Queue
      reads this
    {
      Queue(rtRuntime, rtPeriod, rtTime, rtThrottled, rtNrRunning, rtNrBoosted, charged, drained, periods)
    }

    /** `sched_rt_runtime_exceeded`. */
    method RuntimeExceeded() returns (exceeded: bool)
      modifies this`rtThrottled, this`rtTime, this`drained
      ensures exceeded <==> rtThrottled && rtNrBoosted == 0
      ensures State() ==
        if old(rtThrottled) || rtRuntime >= rtPeriod || old(rtTime) <= rtRuntime then old(State())
        else if rtRuntime != 0 then old(State()).(throttled := true)
        else old(State()).(time := 0, drained := old(drained) + old(rtTime))
    {
      if rtThrottled {
        return rtNrBoosted == 0;
      }
      if rtRuntime >= rtPeriod {
        return false;
      }
      if rtTime > rtRuntime {
        if rtRuntime != 0 {
          rtThrottled := true;
        } else {
          drained := drained + rtTime;
          rtTime := 0;
        }
        if rtThrottled && rtNrBoosted == 0 {
          return true;
        }
      }
      return false;
    }

    /** The charging loop of `update_curr_rt` for this queue. */
    method UpdateCurr(delta: nat) returns (resched: bool)
      modifies this
      ensures State() == AddCharge(old(State()), delta) && (resched <==> rtThrottled && rtNrBoosted == 0)
    {
      rtTime, charged := rtTime + delta, charged + delta;
      resched := RuntimeExceeded();
    }

    /** `do_sched_rt_period_timer` for this queue. */
    method PeriodTimer(overrun: nat) returns (idle: bool)
      modifies this
      ensures (State(), idle) == Period(old(State()), overrun)
    {
      hide Product;
      idle := true;
      periods := periods + overrun;
      if rtTime != 0 {
        var paid := Min(rtTime, Product(overrun, rtRuntime));
        rtTime, drained := rtTime - paid, drained + paid;
        if rtThrottled && rtTime < rtRuntime {
          rtThrottled := false;
        }
        if rtTime != 0 || rtNrRunning != 0 {
          idle := false;
        }
      } else if rtNrRunning != 0 {
        idle := false;
      }
    }
  }
}
