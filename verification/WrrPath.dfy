/**
 The path buffer of the WRR class. `task_tick_wrr` writes the running task's group path into one static buffer and
 then compares that buffer twice, holding no more than its own run queue's lock, so that other CPUs and
 `get_rr_interval_wrr` can write in between.
 */
module WrrPath {
  import opened Basics
  import opened WrrRotation

  /** Where a CPU is in a refill: `fore` is what the first comparison found. */
  datatype Pc = Resting | Expired | Written | NotFore(fore: string)

  /** The running task's group and slice. `seen` and `alone` are history: what the comparisons of the last refill
      found, and whether nobody else has written since this CPU did. */
  datatype Cpu = Cpu(pc: Pc, group: string, slice: nat, seen: Seen, alone: bool)

  datatype State = State(hz: nat, buffer: string, cpus: seq<Cpu>)

  datatype Step =
    | Expire(c: nat, group: string)
    | WritePath(c: nat)
    | CompareFore(c: nat)
    | CompareBack(c: nat)
    | Query(group: string)

  predicate Enabled(s: State, step: Step)
  {
    match step
    case Expire(c, _) => c < |s.cpus| && s.cpus[c].pc.Resting?
    case WritePath(c) => c < |s.cpus| && s.cpus[c].pc.Expired?
    case CompareFore(c) => c < |s.cpus| && s.cpus[c].pc.Written?
    case CompareBack(c) => c < |s.cpus| && s.cpus[c].pc.NotFore?
    case Query(_) => true
  }

  /** Nobody but the writer has been alone since. */
  function Disturbed(cpus: seq<Cpu>): (r: seq<Cpu>)
    ensures |r| == |cpus|
    ensures forall i :: 0 <= i < |r| ==> r[i] == cpus[i].(alone := false)
  {
    seq(|cpus|, i requires 0 <= i < |cpus| => cpus[i].(alone := false))
  }

  function Next(s: State, step: Step): State
    requires Enabled(s, step)
  {
    match step
    case Expire(c, group) => s.(cpus := s.cpus[c := s.cpus[c].(pc := Expired, group := group, slice := 0)])
    case WritePath(c) =>
      var t := s.cpus[c];
      s.(buffer := t.group, cpus := Disturbed(s.cpus)[c := t.(pc := Written, alone := true)])
    case CompareFore(c) =>
      var t := s.cpus[c];
      var next :=
        if s.buffer == FOREGROUP
        then t.(pc := Resting, slice := ForeSlice(s.hz), seen := Seen(s.buffer, s.buffer))
        else t.(pc := NotFore(s.buffer));
      s.(cpus := s.cpus[c := next])
    case CompareBack(c) =>
      var t := s.cpus[c];
      var slice := if s.buffer == BACKGROUP then BackSlice(s.hz) else t.slice;
      s.(cpus := s.cpus[c := t.(pc := Resting, slice := slice, seen := Seen(t.pc.fore, s.buffer))])
    case Query(group) => s.(buffer := group, cpus := Disturbed(s.cpus))
  }

  function Execute(s: State, steps: seq<Step>): State
    decreases |steps|
  {
    if steps == [] then s else Execute(if Enabled(s, steps[0]) then Next(s, steps[0]) else s, steps[1..])
  }

  /** Every step exactly: who writes is alone until the next write, each comparison looks at the buffer as it is then,
      the first that matches sets the slice, and none leaves it at zero. */
  lemma NextExact(s: State, step: Step, e: State)
    requires Enabled(s, step) && e == Next(s, step)
    ensures |e.cpus| == |s.cpus| && e.hz == s.hz
    ensures step.WritePath? ==> e.buffer == s.cpus[step.c].group
    ensures step.Query? ==> e.buffer == step.group
    ensures !step.WritePath? && !step.Query? ==> e.buffer == s.buffer
    ensures forall i :: 0 <= i < |s.cpus| && (step.Query? || i != step.c) ==>
      e.cpus[i] == if step.WritePath? || step.Query? then s.cpus[i].(alone := false) else s.cpus[i]
    ensures match step
            case Expire(c, group) => e.cpus[c] == s.cpus[c].(pc := Expired, group := group, slice := 0)
            case WritePath(c) => e.cpus[c] == s.cpus[c].(pc := Written, alone := true)
            case CompareFore(c) =>
              if s.buffer == "/"
              then e.cpus[c].pc.Resting? && e.cpus[c].slice == s.hz / 10 && e.cpus[c].seen.fore == s.buffer
              else e.cpus[c] == s.cpus[c].(pc := NotFore(s.buffer))
            case CompareBack(c) =>
              && e.cpus[c].pc.Resting? && e.cpus[c].seen == Seen(s.cpus[c].pc.fore, s.buffer)
              && e.cpus[c].slice == if s.buffer == "/bg_non_interactive" then s.hz / 100 else s.cpus[c].slice
            case Query(_) => true
  {
  }

  /** A refill that is done is that of the paths found; one under way finds its own path as long as it is alone. */
  predicate CpuOk(s: State, t: Cpu)
  {
    && (t.pc.Resting? ==> t.slice == PathRefill(t.seen, s.hz) && (t.alone ==> Answers(t.seen, t.group)))
    && (!t.pc.Resting? ==> t.slice == 0)
    && (t.pc.Written? && t.alone ==> s.buffer == t.group)
    && (t.pc.NotFore? ==> t.pc.fore != FOREGROUP && (t.alone ==> s.buffer == t.group == t.pc.fore))
  }

  ghost predicate Inv(s: State)
  {
    forall c :: 0 <= c < |s.cpus| ==> CpuOk(s, s.cpus[c])
  }

  lemma NextOk(s: State, step: Step)
    requires Inv(s) && Enabled(s, step)
    ensures Inv(Next(s, step)) && Next(s, step).hz == s.hz
  {
    hide ForeSlice, BackSlice;
    var e := Next(s, step);
    forall c | 0 <= c < |e.cpus| ensures CpuOk(e, e.cpus[c]) {
      assert CpuOk(s, s.cpus[c]);
    }
  }

  lemma {:induction false} ExecuteOk(s: State, steps: seq<Step>)
    requires Inv(s)
    ensures Inv(Execute(s, steps)) && Execute(s, steps).hz == s.hz
    decreases |steps|
  {
    hide Inv, Next, Enabled;
    if steps != [] {
      if Enabled(s, steps[0]) {
        NextOk(s, steps[0]);
        ExecuteOk(Next(s, steps[0]), steps[1..]);
      } else {
        ExecuteOk(s, steps[1..]);
      }
    }
  }

  /** Nothing refilled yet: every CPU runs a task of the foreground group with a full slice. */
  function Boot(hz: nat, n: nat): State
  {
    State(hz, "", seq(n, _ => Cpu(Resting, FOREGROUP, ForeSlice(hz), Seen(FOREGROUP, FOREGROUP), false)))
  }

  /** Over every interleaving of any number of CPUs and queries, a finished refill is the slice of the paths found, and
      that is the slice of the task's own group exactly if the comparisons answered as on its own path; they do if
      nobody else wrote in between. */
  lemma EveryInterleaving(hz: nat, n: nat, steps: seq<Step>, c: nat)
    requires c < |Execute(Boot(hz, n), steps).cpus| && Execute(Boot(hz, n), steps).cpus[c].pc.Resting?
    ensures var t := Execute(Boot(hz, n), steps).cpus[c];
            && t.slice == PathRefill(t.seen, hz)
            && (Answers(t.seen, t.group) ==> t.slice == Refill(t.group, hz))
            && (hz >= 100 ==> (t.slice == Refill(t.group, hz) <==> Answers(t.seen, t.group)))
            && (t.alone ==> t.slice == Refill(t.group, hz))
  {
    hide Execute, PathRefill, Refill, Answers;
    assert Inv(Boot(hz, n)) by {
      BootOk(hz, n);
    }
    ExecuteOk(Boot(hz, n), steps);
    var e := Execute(Boot(hz, n), steps);
    var t := e.cpus[c];
    assert CpuOk(e, t);
    PathRefillIff(t.seen, t.group, hz);
  }

  lemma BootOk(hz: nat, n: nat)
    ensures Inv(Boot(hz, n))
  {
  }

  // ---- Refills from another task's group ----

  /** CPU 0 refills a foreground task; CPU 1 writes the path of its own task before CPU 0 compares. */
  function Race(other: string): seq<Step>
  {
    [Expire(0, FOREGROUP), Expire(1, other), WritePath(0), WritePath(1), CompareFore(0), CompareBack(0)]
  }

  lemma RaceIs(hz: nat, other: string)
    requires other != FOREGROUP
    ensures var e := Execute(Boot(hz, 2), Race(other));
            && |e.cpus| == 2 && e.cpus[0].pc.Resting? && e.cpus[0].group == FOREGROUP
            && e.cpus[0].slice == if other == BACKGROUP then BackSlice(hz) else 0
  {
    hide ForeSlice, BackSlice;
    var steps := Race(other);
    var s0 := Boot(hz, 2);
    var s1 := Next(s0, steps[0]);
    var s2 := Next(s1, steps[1]);
    var s3 := Next(s2, steps[2]);
    var s4 := Next(s3, steps[3]);
    var s5 := Next(s4, steps[4]);
    var s6 := Next(s5, steps[5]);
    RaceSteps(s0, s1, s2, steps);
    RaceSteps(s2, s3, s4, steps[2..]);
    assert steps[2..][2..] == steps[4..];
    RaceSteps(s4, s5, s6, steps[4..]);
    assert steps[4..][2..] == [];
  }

  lemma RaceSteps(a: State, b: State, c: State, steps: seq<Step>)
    requires |steps| >= 2 && Enabled(a, steps[0]) && b == Next(a, steps[0])
    requires Enabled(b, steps[1]) && c == Next(b, steps[1])
    ensures Execute(a, steps) == Execute(c, steps[2..])
  {
    hide Enabled, Next;
    assert steps[1..][0] == steps[1] && steps[1..][1..] == steps[2..];
  }

  /** From HZ 100 on: a background task on another CPU can leave a foreground task with the background slice, a tenth
      or less of its own, and a task of any other group can leave it with none, a turn of 2^32 ticks. */
  lemma ForeignRefills(hz: nat, other: string)
    requires hz >= 100 && other != FOREGROUP && other != BACKGROUP
    ensures var a := Execute(Boot(hz, 2), Race(BACKGROUP));
            |a.cpus| == 2 && a.cpus[0].pc.Resting? && a.cpus[0].group == FOREGROUP
            && a.cpus[0].slice == Refill(BACKGROUP, hz) && 10 * a.cpus[0].slice <= Refill(FOREGROUP, hz)
    ensures var b := Execute(Boot(hz, 2), Race(other));
            |b.cpus| == 2 && b.cpus[0].pc.Resting? && b.cpus[0].group == FOREGROUP
            && Lasts(b.cpus[0].slice) == WRAP
  {
    GroupsDiffer();
    RaceIs(hz, BACKGROUP);
    RaceIs(hz, other);
    hide Execute;
    Weights(hz);
  }
}
