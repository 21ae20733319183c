/**
 The weighted rotation of the WRR queue, tick by tick: the head's slice counts down, is refilled by group when it
 reaches zero, and the head goes to the tail. Slices are 32-bit, so a slice of zero counts down from 2^32.
 */
module WrrRotation {
  import opened Basics

  const WRAP := 0x1_0000_0000

  /** A queued task: who it is, the path of its group, and what is left of its slice. */
  datatype Ent = Ent(id: nat, group: string, slice: nat)

  const FOREGROUP := "/"
  const BACKGROUP := "/bg_non_interactive"

  function ForeSlice(hz: nat): nat
  {
    100 * hz / 1000
  }

  function BackSlice(hz: nat): nat
  {
    10 * hz / 1000
  }

  /** `--time_slice`, on an unsigned 32-bit slice. */
  function Dec(slice: nat): nat
  {
    if slice == 0 then WRAP - 1 else slice - 1
  }

  /** What a slice that has reached zero becomes: groups other than the two named ones are left at zero. */
  function Refill(group: string, hz: nat): nat
  {
    if group == FOREGROUP then ForeSlice(hz)
    else if group == BACKGROUP then BackSlice(hz)
    else 0
  }

  /** What the two comparisons of `task_tick_wrr` find in `group_path`, one buffer for all CPUs. */
  datatype Seen = Seen(fore: string, back: string)

  /** What a slice that has reached zero becomes, by what is in the buffer. */
  function PathRefill(seen: Seen, hz: nat): nat
  {
    if seen.fore == FOREGROUP then ForeSlice(hz)
    else if seen.back == BACKGROUP then BackSlice(hz)
    else 0
  }

  /** The comparisons answer as they would on the task's own path. */
  predicate Answers(seen: Seen, group: string)
  {
    && (seen.fore == FOREGROUP <==> group == FOREGROUP)
    && (group != FOREGROUP ==> (seen.back == BACKGROUP <==> group == BACKGROUP))
  }

  /** A refill is that of the task's own group exactly if the comparisons answer as on its own path. */
  lemma PathRefillIff(seen: Seen, group: string, hz: nat)
    ensures Answers(seen, group) ==> PathRefill(seen, hz) == Refill(group, hz)
    ensures hz >= 100 ==> (PathRefill(seen, hz) == Refill(group, hz) <==> Answers(seen, group))
    ensures Answers(Seen(group, group), group)
  {
    GroupsDiffer();
  }

  /** How many ticks a slice lasts. */
  function Lasts(slice: nat): (n: nat)
    ensures n > 0
  {
    if slice == 0 then WRAP else slice
  }

  function Full(e: Ent, hz: nat): Ent
  {
    e.(slice := Refill(e.group, hz))
  }

  /** One tick on the running head, whose slice becomes `refill` when it runs out. */
  function TickTo(q: seq<Ent>, refill: nat): (r: seq<Ent>)
    ensures |r| == |q|
  {
    if q == [] then q
    else
      var left := Dec(q[0].slice);
      if left != 0 then [q[0].(slice := left)] + q[1..]
      else q[1..] + [q[0].(slice := refill)]
  }

  /** One tick that refills from the head's own group. */
  function Tick(q: seq<Ent>, hz: nat): (r: seq<Ent>)
    ensures |r| == |q|
  {
    if q == [] then q else TickTo(q, Refill(q[0].group, hz))
  }

  function Ticks(q: seq<Ent>, hz: nat, n: nat): (r: seq<Ent>)
    ensures |r| == |q|
    decreases n
  {
    if n == 0 then q else Ticks(Tick(q, hz), hz, n - 1)
  }

  /** How many of the next `n` ticks find task `id` running. */
  function Share(q: seq<Ent>, hz: nat, n: nat, id: nat): nat
    decreases n
  {
    if n == 0 || q == [] then 0
    else (if q[0].id == id then 1 else 0) + Share(Tick(q, hz), hz, n - 1, id)
  }

  /** How long the tasks of `q` run before their turns are over. */
  function Sum(q: seq<Ent>): nat
  {
    if q == [] then 0 else Lasts(q[0].slice) + Sum(q[1..])
  }

  function AllFull(q: seq<Ent>, hz: nat): (r: seq<Ent>)
    ensures |r| == |q|
    ensures forall i :: 0 <= i < |q| ==> r[i] == Full(q[i], hz)
  {
    if q == [] then [] else [Full(q[0], hz)] + AllFull(q[1..], hz)
  }

  function Ids(q: seq<Ent>): (r: seq<nat>)
    ensures |r| == |q|
    ensures forall i :: 0 <= i < |q| ==> r[i] == q[i].id
  {
    if q == [] then [] else [q[0].id] + Ids(q[1..])
  }

  // ---- Turns ----

  lemma {:induction false} TicksAdd(q: seq<Ent>, hz: nat, m: nat, n: nat)
    ensures Ticks(q, hz, m + n) == Ticks(Ticks(q, hz, m), hz, n)
    decreases m
  {
    if m > 0 {
      TicksAdd(Tick(q, hz), hz, m - 1, n);
    }
  }

  lemma {:induction false} ShareAdd(q: seq<Ent>, hz: nat, m: nat, n: nat, id: nat)
    ensures Share(q, hz, m + n, id) == Share(q, hz, m, id) + Share(Ticks(q, hz, m), hz, n, id)
    decreases m
  {
    if m > 0 && q != [] {
      ShareAdd(Tick(q, hz), hz, m - 1, n, id);
    }
  }

  /** The head runs for exactly as long as its slice lasts, then goes to the tail with a full slice. */
  lemma {:induction false} Turn(q: seq<Ent>, hz: nat, id: nat)
    requires q != [] && q[0].slice < WRAP
    ensures Ticks(q, hz, Lasts(q[0].slice)) == q[1..] + [Full(q[0], hz)]
    ensures Share(q, hz, Lasts(q[0].slice), id) == if q[0].id == id then Lasts(q[0].slice) else 0
    decreases Lasts(q[0].slice)
  {
    var n := Lasts(q[0].slice);
    var left := Dec(q[0].slice);
    if left == 0 {
      assert Ticks(q, hz, 1) == Ticks(Tick(q, hz), hz, 0);
      assert Share(q, hz, 1, id) == (if q[0].id == id then 1 else 0) + Share(Tick(q, hz), hz, 0, id);
    } else {
      var q' := Tick(q, hz);
      assert q'[1..] == q[1..] && Full(q'[0], hz) == Full(q[0], hz);
      Turn(q', hz, id);
    }
  }

  predicate Bounded(q: seq<Ent>)
  {
    forall e :: e in q ==> e.slice < WRAP
  }

  /** The part of `Sum` that is task `id`'s. */
  function SumOf(q: seq<Ent>, id: nat): nat
  {
    if q == [] then 0 else (if q[0].id == id then Lasts(q[0].slice) else 0) + SumOf(q[1..], id)
  }

  /** After the turns of the tasks in front, they are at the tail, full, and the first task behind them is the
      head; each of them ran for exactly its slice. */
  lemma {:induction false} Turns(front: seq<Ent>, behind: seq<Ent>, hz: nat, id: nat)
    requires Bounded(front)
    ensures Ticks(front + behind, hz, Sum(front)) == behind + AllFull(front, hz)
    ensures Share(front + behind, hz, Sum(front), id) == SumOf(front, id)
    decreases |front|
  {
    hide Ticks, Tick, Share, Lasts, Full, AllFull;
    if front == [] {
      assert front + behind == behind == behind + AllFull(front, hz);
      NoTicks(behind, hz, id);
    } else {
      var e, rest := front[0], front[1..];
      var q := front + behind;
      var behind' := behind + [Full(e, hz)];
      var n, m := Lasts(e.slice), Sum(rest);
      FirstTurn(front, behind, hz, id);
      TicksAdd(q, hz, n, m);
      ShareAdd(q, hz, n, m, id);
      Turns(rest, behind', hz, id);
      AllFullFirst(front, behind, hz);
    }
  }

  lemma FirstTurn(front: seq<Ent>, behind: seq<Ent>, hz: nat, id: nat)
    requires front != [] && Bounded(front)
    ensures Ticks(front + behind, hz, Lasts(front[0].slice)) == front[1..] + (behind + [Full(front[0], hz)])
    ensures Share(front + behind, hz, Lasts(front[0].slice), id)
         == if front[0].id == id then Lasts(front[0].slice) else 0
  {
    hide Ticks, Tick, Share, Lasts, Full;
    var q := front + behind;
    var x := Full(front[0], hz);
    Turn(q, hz, id);
    assert q[1..] == front[1..] + behind;
    assert q[1..] + [x] == front[1..] + (behind + [x]);
  }

  lemma AllFullFirst(front: seq<Ent>, behind: seq<Ent>, hz: nat)
    requires front != []
    ensures behind + [Full(front[0], hz)] + AllFull(front[1..], hz) == behind + AllFull(front, hz)
  {
    hide Full;
    assert AllFull(front, hz) == [Full(front[0], hz)] + AllFull(front[1..], hz);
  }

  lemma NoTicks(q: seq<Ent>, hz: nat, id: nat)
    ensures Ticks(q, hz, 0) == q && Share(q, hz, 0, id) == 0
  {
  }

  // ---- Waiting for a turn, with newcomers ----

  /** A tick of the running task with the refill it would get, or a task joining at the tail. */
  datatype Step = TickStep(refill: nat) | Join(ent: Ent)

  function Apply(q: seq<Ent>, step: Step): seq<Ent>
  {
    match step
    case TickStep(refill) => TickTo(q, refill)
    case Join(e) => q + [e]
  }

  function Execute(q: seq<Ent>, steps: seq<Step>): seq<Ent>
    decreases |steps|
  {
    if steps == [] then q else Execute(Apply(q, steps[0]), steps[1..])
  }

  /** Every refill that takes place is that of the head's own group. */
  predicate OwnRefills(q: seq<Ent>, hz: nat, steps: seq<Step>)
    decreases |steps|
  {
    steps != [] ==>
      && (steps[0].TickStep? && q != [] && Dec(q[0].slice) == 0 ==> steps[0].refill == Refill(q[0].group, hz))
      && OwnRefills(Apply(q, steps[0]), hz, steps[1..])
  }

  function TickCount(steps: seq<Step>): nat
  {
    if steps == [] then 0 else (if steps[0].TickStep? then 1 else 0) + TickCount(steps[1..])
  }

  lemma {:induction false} SumAppend(a: seq<Ent>, b: seq<Ent>)
    ensures Sum(a + b) == Sum(a) + Sum(b)
  {
    if a == [] {
      assert a + b == b;
    } else {
      assert (a + b)[1..] == a[1..] + b;
      SumAppend(a[1..], b);
    }
  }

  /** One tick brings every waiting task exactly one tick closer to its turn. */
  lemma TickWait(front: seq<Ent>, e: Ent, behind: seq<Ent>, refill: nat) returns (front': seq<Ent>, behind': seq<Ent>)
    requires front != [] && Bounded(front)
    ensures TickTo(front + [e] + behind, refill) == front' + [e] + behind'
    ensures Bounded(front') && Sum(front') == Sum(front) - 1
  {
    var q := front + [e] + behind;
    var h := front[0];
    var left := Dec(h.slice);
    if left != 0 {
      front', behind' := [h.(slice := left)] + front[1..], behind;
      assert front'[1..] == front[1..];
      assert q[1..] == front[1..] + [e] + behind;
    } else {
      front', behind' := front[1..], behind + [h.(slice := refill)];
      assert q[1..] + [h.(slice := refill)] == front' + [e] + behind';
    }
  }

  /** However many tasks join meanwhile, and whatever slices are refilled to, a queued task is the head after exactly
      as many ticks as the slices in front of it last, and not before. */
  lemma {:induction false} WaitExact(front: seq<Ent>, e: Ent, behind: seq<Ent>, steps: seq<Step>)
    returns (front': seq<Ent>, behind': seq<Ent>)
    requires Bounded(front) && TickCount(steps) <= Sum(front)
    ensures Execute(front + [e] + behind, steps) == front' + [e] + behind'
    ensures Sum(front') == Sum(front) - TickCount(steps)
    ensures front' == [] <==> TickCount(steps) == Sum(front)
    decreases |steps|
  {
    hide TickTo, Lasts;
    var q := front + [e] + behind;
    if steps == [] {
      front', behind' := front, behind;
    } else if steps[0].TickStep? {
      var f, b := TickWait(front, e, behind, steps[0].refill);
      front', behind' := WaitExact(f, e, b, steps[1..]);
    } else {
      var b := behind + [steps[0].ent];
      assert q + [steps[0].ent] == front + [e] + b;
      front', behind' := WaitExact(front, e, b, steps[1..]);
    }
  }

  // ---- Whole rotations ----

  predicate Fresh(q: seq<Ent>, hz: nat)
  {
    forall i :: 0 <= i < |q| ==> q[i].slice == Refill(q[i].group, hz)
  }

  /** With distinct tasks, task `i`'s part of a rotation is its own slice. */
  lemma {:induction false} SumOfAt(q: seq<Ent>, i: nat)
    requires i < |q| && Distinct(Ids(q))
    ensures SumOf(q, q[i].id) == Lasts(q[i].slice)
    decreases |q|
  {
    var ids := Ids(q);
    assert Ids(q[1..]) == ids[1..];
    if i == 0 {
      assert q[0].id !in Ids(q[1..]);
      SumOfAbsent(q[1..], q[0].id);
    } else {
      assert ids[0] != ids[i];
      SumOfAt(q[1..], i - 1);
    }
  }

  lemma {:induction false} SumOfAbsent(q: seq<Ent>, id: nat)
    requires id !in Ids(q)
    ensures SumOf(q, id) == 0
  {
    if q != [] {
      assert q[0].id == Ids(q)[0];
      assert Ids(q[1..]) == Ids(q)[1..];
      SumOfAbsent(q[1..], id);
    }
  }

  /** Over `k` whole rotations from full slices the queue comes back to where it was, and every task runs for
      exactly `k` times its group's slice. */
  lemma {:induction false} Rotations(q: seq<Ent>, hz: nat, k: nat, i: nat)
    requires i < |q| && Bounded(q) && Fresh(q, hz) && Distinct(Ids(q))
    ensures Ticks(q, hz, k * Sum(q)) == q
    ensures Share(q, hz, k * Sum(q), q[i].id) == k * Lasts(Refill(q[i].group, hz))
    decreases k
  {
    hide Ticks, Share, Sum, Lasts, Refill, Tick;
    var id := q[i].id;
    var n := Sum(q);
    if k == 0 {
      assert k * n == 0;
      NoTicks(q, hz, id);
    } else {
      assert k * n == n + (k - 1) * n;
      TicksAdd(q, hz, n, (k - 1) * n);
      ShareAdd(q, hz, n, (k - 1) * n, id);
      OneRotation(q, hz, i);
      Rotations(q, hz, k - 1, i);
      var s := Lasts(Refill(q[i].group, hz));
      assert k * s == s + (k - 1) * s;
    }
  }

  lemma OneRotation(q: seq<Ent>, hz: nat, i: nat)
    requires i < |q| && Bounded(q) && Fresh(q, hz) && Distinct(Ids(q))
    ensures Ticks(q, hz, Sum(q)) == q
    ensures Share(q, hz, Sum(q), q[i].id) == Lasts(Refill(q[i].group, hz))
  {
    hide Ticks, Share, Sum, Lasts, Refill, Tick, SumOf;
    Turns(q, [], hz, q[i].id);
    assert q + [] == q;
    assert AllFull(q, hz) == q;
    assert [] + AllFull(q, hz) == q;
    SumOfAt(q, i);
  }

  /** Exactly when a refill leaves the slice at zero, so that the next turn lasts 2^32 ticks. */
  lemma RefillZeroIff(group: string, hz: nat)
    ensures Refill(group, hz) == 0 <==>
              || (group != FOREGROUP && group != BACKGROUP)
              || (group == FOREGROUP && hz < 10)
              || (group == BACKGROUP && hz < 100)
    ensures Refill(group, hz) == 0 ==> Lasts(Refill(group, hz)) == WRAP
  {
    GroupsDiffer();
  }

  lemma GroupsDiffer()
    ensures FOREGROUP != BACKGROUP
  {
    assert |FOREGROUP| != |BACKGROUP|;
  }

  /** Exactly when turns last what the group is meant to get. A turn that starts with slice `e.slice` lasts the group's
      slice iff the slice is that, and not zero; every turn after a refill does iff the refill is not zero. */
  lemma TurnIsGroupSliceIff(e: Ent, hz: nat)
    requires e.slice < WRAP && hz < WRAP
    ensures Lasts(e.slice) == Refill(e.group, hz) <==> e.slice == Refill(e.group, hz) && e.slice != 0
    ensures Lasts(Full(e, hz).slice) == Refill(e.group, hz) <==> Refill(e.group, hz) != 0
  {
    RefillBound(e.group, hz);
  }

  lemma RefillBound(group: string, hz: nat)
    ensures Refill(group, hz) <= hz
  {
  }

  /** The weights: with HZ a multiple of 100 a foreground task runs exactly ten times as long as a background one, and
      from HZ 100 on at least ten times as long. */
  lemma Weights(hz: nat)
    ensures hz >= 100 && hz % 100 == 0 ==>
              Lasts(Refill(FOREGROUP, hz)) == 10 * Lasts(Refill(BACKGROUP, hz))
    ensures hz >= 100 ==> Lasts(Refill(FOREGROUP, hz)) >= 10 * Lasts(Refill(BACKGROUP, hz))
  {
    GroupsDiffer();
  }

  /** A tick keeps every slice between one and its group's slice, when all tasks are in the two named groups. */
  predicate InBounds(e: Ent, hz: nat)
  {
    && (e.group == FOREGROUP || e.group == BACKGROUP)
    && 1 <= e.slice <= Refill(e.group, hz)
  }

  lemma TickKeepsBounds(q: seq<Ent>, hz: nat)
    requires hz >= 100
    requires forall e :: e in q ==> InBounds(e, hz)
    ensures forall e :: e in Tick(q, hz) ==> InBounds(e, hz)
  {
    var r := Tick(q, hz);
    if q != [] {
      assert InBounds(q[0], hz);
      forall e | e in r ensures InBounds(e, hz) {
        assert e in q || e == q[0].(slice := Dec(q[0].slice)) || e == Full(q[0], hz);
      }
    }
  }

  /** So does every run of ticks and joins, when those who join are within bounds and refills are from the own group. */
  lemma {:induction false} RunKeepsBounds(q: seq<Ent>, hz: nat, steps: seq<Step>)
    requires hz >= 100 && OwnRefills(q, hz, steps)
    requires forall e :: e in q ==> InBounds(e, hz)
    requires forall i :: 0 <= i < |steps| && steps[i].Join? ==> InBounds(steps[i].ent, hz)
    ensures forall e :: e in Execute(q, steps) ==> InBounds(e, hz)
    decreases |steps|
  {
    hide InBounds, TickTo;
    if steps != [] {
      TickKeepsBounds(q, hz);
      if steps[0].TickStep? {
        OwnTick(q, hz, steps[0].refill);
      }
      RunKeepsBounds(Apply(q, steps[0]), hz, steps[1..]);
    }
  }

  lemma OwnTick(q: seq<Ent>, hz: nat, refill: nat)
    requires q != [] && Dec(q[0].slice) == 0 ==> refill == Refill(q[0].group, hz)
    ensures TickTo(q, refill) == Tick(q, hz)
  {
  }

  predicate OnlyTicks(steps: seq<Step>)
  {
    forall i :: 0 <= i < |steps| ==> steps[i].TickStep?
  }

  /** How many ticks of a run find task `id` running. */
  function HeadCount(q: seq<Ent>, steps: seq<Step>, id: nat): nat
    decreases |steps|
  {
    if steps == [] then 0
    else
      (if steps[0].TickStep? && q != [] && q[0].id == id then 1 else 0) + HeadCount(Apply(q, steps[0]), steps[1..], id)
  }

  /** A run of ticks whose refills are from the own group is that many ticks of the rotation. */
  lemma {:induction false} OwnRun(q: seq<Ent>, hz: nat, steps: seq<Step>, id: nat)
    requires OnlyTicks(steps) && OwnRefills(q, hz, steps)
    ensures Execute(q, steps) == Ticks(q, hz, |steps|) && HeadCount(q, steps, id) == Share(q, hz, |steps|, id)
    decreases |steps|
  {
    hide TickTo, Tick;
    if steps != [] {
      OwnTick(q, hz, steps[0].refill);
      OwnRun(Apply(q, steps[0]), hz, steps[1..], id);
      if q == [] {
        NobodyRuns(Apply(q, steps[0]), hz, |steps| - 1, id);
      }
    }
  }

  lemma NobodyRuns(q: seq<Ent>, hz: nat, n: nat, id: nat)
    ensures q == [] ==> Share(q, hz, n, id) == 0
  {
  }
}
