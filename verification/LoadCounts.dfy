/**
 What the accounting of LoadAccounting counts: each step of a CPU exactly, the tasks that run or wait
 uninterruptibly once every CPU has folded, and the CPUs' own windows.
 */
module LoadCounts {
  import opened Basics
  import opened LoadAccounting

  /** The tasks of a CPU that count towards the load. */
  function Active(r: Rq): int
  {
    r.nrRunning + r.nrUninterruptible
  }

  /** The step leaves the other CPUs, the global caller and the clock alone. */
  ghost predicate OnlyCpu(s: State, e: State, c: nat)
  {
    && |e.rqs| == |s.rqs|
    && (forall i :: 0 <= i < |s.rqs| && i != c ==> e.rqs[i] == s.rqs[i])
    && e == s.(rqs := e.rqs, tasks := e.tasks, idle := e.idle, deposits := e.deposits)
  }

  /** A fold, from the tick or on going idle, accounts the CPU's counts as they are, and what it carries on is exactly
      the change. Nothing is carried on by a CPU going idle with nothing to hand on. */
  lemma FoldExact(s: State, step: Step, e: State)
    requires Enabled(s, step) && (step.TickFold? || step.IdleFold?) && e == Next(s, step)
    ensures OnlyCpu(s, e, step.cpu) && e.tasks == s.tasks && e.idle == s.idle && e.deposits == s.deposits
    ensures var r, q := s.rqs[step.cpu], e.rqs[step.cpu];
            && q == r.(active := q.active, pc := q.pc)
            && q.active == r.nrRunning + r.nrUninterruptible
            && (step.TickFold? ==> q.pc == TickFolded(q.active - r.active))
            && (step.IdleFold? ==> q.pc == if q.active == r.active then Quiet else IdleFolded(q.active - r.active))
  {
  }

  /** What is carried goes to the global count on a tick, after which the CPU's window is one period later, and into a
      slot on going idle: that of the index read if the window was still to open, and the other one if not. */
  lemma HandOnExact(s: State, step: Step, e: State)
    requires Enabled(s, step) && (step.TickAdd? || step.IdleDeposit?) && e == Next(s, step)
    ensures OnlyCpu(s, e, step.cpu)
    ensures var r, q := s.rqs[step.cpu], e.rqs[step.cpu];
            && q == r.(update := q.update, pc := Quiet)
            && (step.TickAdd? ==>
                  && e.tasks == s.tasks + r.pc.delta && e.idle == s.idle && e.deposits == s.deposits
                  && q.update == r.update + 5 * s.hz + 1)
            && (step.IdleDeposit? ==>
                  var slot := if r.pc.early then r.pc.idx % 2 else 1 - r.pc.idx % 2;
                  && e.tasks == s.tasks && |e.idle| == 2 && q.update == r.update
                  && e.idle[slot] == s.idle[slot] + r.pc.delta && e.idle[1 - slot] == s.idle[1 - slot])
  {
  }

  /** What a CPU on its way to a deposit reads: the index, then the jiffies, then whether they are before the window. */
  lemma ReadsExact(s: State, step: Step, e: State)
    requires Enabled(s, step) && (step.IdleReadIndex? || step.IdleReadJiffies? || step.IdleReadUpdate?)
    requires e == Next(s, step)
    ensures OnlyCpu(s, e, step.cpu) && e.tasks == s.tasks && e.idle == s.idle && e.deposits == s.deposits
    ensures var r, q := s.rqs[step.cpu], e.rqs[step.cpu];
            && q == r.(pc := q.pc)
            && (step.IdleReadIndex? ==> q.pc.IdleIndexed? && q.pc.delta == r.pc.delta && q.pc.idx == s.idx)
            && (step.IdleReadJiffies? ==>
                  q.pc.IdleTimed? && q.pc.delta == r.pc.delta && q.pc.idx == r.pc.idx && q.pc.now == s.jiffies)
            && (step.IdleReadUpdate? ==>
                  && q.pc.IdleChosen? && q.pc.delta == r.pc.delta && q.pc.idx == r.pc.idx
                  && (q.pc.early <==> r.pc.now < s.update))
  {
  }

  /** Time passes, counts change, and a CPU that goes down takes back what it has accounted. */
  lemma OutsideExact(s: State, step: Step, e: State)
    requires Enabled(s, step) && (step.Jiffy? || step.SetCounts? || step.RemoveCpu?) && e == Next(s, step)
    ensures step.Jiffy? ==> e == s.(jiffies := s.jiffies + 1)
    ensures step.SetCounts? ==>
      && OnlyCpu(s, e, step.cpu) && e.tasks == s.tasks && e.idle == s.idle && e.deposits == s.deposits
      && Active(e.rqs[step.cpu]) == step.running + step.uninterruptible
      && e.rqs[step.cpu].active == s.rqs[step.cpu].active && e.rqs[step.cpu].pc == s.rqs[step.cpu].pc
      && e.rqs[step.cpu].update == s.rqs[step.cpu].update
    ensures step.RemoveCpu? ==>
      && OnlyCpu(s, e, step.cpu) && e.idle == s.idle && e.deposits == s.deposits
      && e.tasks == s.tasks - s.rqs[step.cpu].active && e.rqs[step.cpu] == s.rqs[step.cpu].(active := 0)
  {
  }

  // ----- once every CPU has folded

  /** Whether the CPU's account is up to date after the step, given that it was or was not before. */
  function UpToDate(step: Step, c: nat, before: bool): bool
  {
    if (step.TickFold? || step.IdleFold?) && step.cpu == c then true
    else if (step.SetCounts? || step.RemoveCpu?) && step.cpu == c then false
    else before
  }

  /** CPU c has folded since its counts last changed in the run. */
  function FoldedSince(s: State, steps: seq<Step>, c: nat, before: bool): bool
    decreases |steps|
  {
    if steps == [] then before
    else if Enabled(s, steps[0])
    then FoldedSince(Next(s, steps[0]), steps[1..], c, UpToDate(steps[0], c, before))
    else FoldedSince(s, steps[1..], c, before)
  }

  lemma UpToDateOk(s: State, step: Step, c: nat, before: bool)
    requires Enabled(s, step) && c < |s.rqs| && (before ==> s.rqs[c].active == Active(s.rqs[c]))
    ensures var e := Next(s, step);
            && |e.rqs| == |s.rqs|
            && (UpToDate(step, c, before) ==> e.rqs[c].active == Active(e.rqs[c]))
  {
    hide DepositBy, LoadFreq, WriteSlot;
    if step.IdleDeposit? {
      HandOnExact(s, step, Next(s, step));
    }
  }

  lemma {:induction false} FoldedExact(s: State, steps: seq<Step>, c: nat, before: bool)
    requires c < |s.rqs| && (before ==> s.rqs[c].active == Active(s.rqs[c]))
    ensures var e := Execute(s, steps);
            && |e.rqs| == |s.rqs|
            && (FoldedSince(s, steps, c, before) ==> e.rqs[c].active == Active(e.rqs[c]))
    decreases |steps|
  {
    hide Enabled, Next, UpToDate;
    if steps != [] {
      if Enabled(s, steps[0]) {
        UpToDateOk(s, steps[0], c, before);
        FoldedExact(Next(s, steps[0]), steps[1..], c, UpToDate(steps[0], c, before));
      } else {
        FoldedExact(s, steps[1..], c, before);
      }
    }
  }

  function SumCounts(rqs: seq<Rq>, n: nat): int
    requires n <= |rqs|
  {
    if n == 0 then 0 else SumCounts(rqs, n - 1) + rqs[n - 1].nrRunning + rqs[n - 1].nrUninterruptible
  }

  lemma {:induction false} SumsAgree(rqs: seq<Rq>, n: nat)
    requires n <= |rqs| && forall c :: 0 <= c < n ==> rqs[c].active == Active(rqs[c])
    ensures SumActive(rqs, n) == SumCounts(rqs, n)
  {
    if n > 0 {
      SumsAgree(rqs, n - 1);
    }
  }

  /** Over every interleaving: when each CPU has folded since its counts last changed, the global count, both slots and
      the deltas in flight add up to the tasks that run or wait uninterruptibly on all CPUs. */
  lemma EveryInterleaving(hz: nat, n: nat, jiffies: nat, steps: seq<Step>, s: State)
    requires s == Execute(Boot(hz, n, jiffies), steps)
    requires forall c: nat :: c < n ==> FoldedSince(Boot(hz, n, jiffies), steps, c, true)
    ensures |s.idle| == 2 && |s.rqs| == n
    ensures s.tasks + s.idle[0] + s.idle[1] + (if s.pc.Drained? then s.pc.delta else 0)
        + SumPending(s.rqs, n) == SumCounts(s.rqs, n)
  {
    hide Execute, FoldedSince, SumPending, SumActive, SumCounts;
    var b := Boot(hz, n, jiffies);
    LoadAccounting.EveryInterleaving(hz, n, jiffies, steps, s);
    forall c: nat | c < n
      ensures |s.rqs| == n && s.rqs[c].active == Active(s.rqs[c])
    {
      FoldedExact(b, steps, c, true);
    }
    SameCpus(b, steps);
    SumsAgree(s.rqs, n);
  }

  lemma {:induction false} SameCpus(s: State, steps: seq<Step>)
    ensures |Execute(s, steps).rqs| == |s.rqs|
    decreases |steps|
  {
    hide NextLocal, NextGlobal;
    if steps != [] {
      if Enabled(s, steps[0]) {
        CpusKept(s, steps[0]);
        SameCpus(Next(s, steps[0]), steps[1..]);
      } else {
        SameCpus(s, steps[1..]);
      }
    }
  }

  lemma CpusKept(s: State, step: Step)
    requires Enabled(s, step)
    ensures |Next(s, step).rqs| == |s.rqs|
  {
  }

  // ----- the global caller

  /** `calc_global_load` step by step: the slot of the index is read, taken and zeroed if there is anything in it, and
      added to the global count; the window moves by a period and, if it is already past, by as many as bring it ahead
      of time; then the index flips. */
  lemma GlobalExact(s: State, step: Step, e: State)
    requires Inv(s) && Enabled(s, step) && Global(step) && e == Next(s, step)
    ensures e.rqs == s.rqs && e.jiffies == s.jiffies && e.hz == s.hz
    ensures var slot := s.idx % 2;
            match step
            case GlobalEnter => e.pc == Passed
            case GlobalRead => e.pc == if s.idle[slot] == 0 then Folded else SawWork
            case GlobalExchange => e.pc == Drained(s.idle[slot]) && e.idle == s.idle[slot := 0]
            case GlobalAdd => e.pc == Folded && e.tasks == s.tasks + s.pc.delta
            case GlobalMove => e.pc == Moved && e.update == s.update + 5 * s.hz + 1
            case GlobalTest => e.pc == if s.jiffies < s.update + 10 then Advanced else Behind
            case GlobalCatchUp => e.pc == Advanced && e.update > s.jiffies - 10 && e.update > s.update
            case GlobalFlip => e.pc == Outside && e.idx == s.idx + 1
            case _ => true
    ensures !step.GlobalExchange? ==> e.idle == s.idle
    ensures !step.GlobalAdd? ==> e.tasks == s.tasks
    ensures !step.GlobalMove? && !step.GlobalCatchUp? ==> e.update == s.update
    ensures !step.GlobalFlip? ==> e.idx == s.idx
  {
    hide Handed, SumSlot, Slots, Fresh, Conserved, Reads, WithoutSlot, Missed, Product;
    if step.GlobalCatchUp? {
      MissedBound(s.update, s.jiffies, LoadFreq(s.hz));
      MissedSome(s.update, s.jiffies, LoadFreq(s.hz));
    }
  }

  lemma MissedSome(update: nat, jiffies: nat, freq: nat)
    requires freq > 0 && jiffies >= update + 10
    ensures Product(Missed(update, jiffies, freq), freq) > 0
  {
    ProductLaws(Missed(update, jiffies, freq), 0, freq);
  }

  /** Nobody gets stuck: a call under way can always go on, and so can a CPU on its way; a call can begin once the
      window has been open for ten ticks, and a CPU whose window has come can fold or wake up. */
  lemma GoesOn(s: State, c: nat)
    requires Inv(s) && c < |s.rqs|
    ensures s.pc.Outside? && s.jiffies >= s.update + 10 ==> Enabled(s, GlobalEnter)
    ensures !s.pc.Outside? ==>
      || Enabled(s, GlobalRead) || Enabled(s, GlobalExchange) || Enabled(s, GlobalAdd) || Enabled(s, GlobalMove)
      || Enabled(s, GlobalTest) || Enabled(s, GlobalCatchUp) || Enabled(s, GlobalFlip)
    ensures !s.rqs[c].pc.Quiet? ==>
      || Enabled(s, TickAdd(c)) || Enabled(s, IdleReadIndex(c)) || Enabled(s, IdleReadJiffies(c))
      || Enabled(s, IdleReadUpdate(c)) || Enabled(s, IdleDeposit(c)) || Enabled(s, IdleSync(c))
    ensures s.rqs[c].pc.Quiet? ==> Enabled(s, IdleFold(c)) && Enabled(s, RemoveCpu(c))
    ensures s.rqs[c].pc.Quiet? ==>
      && (s.jiffies >= s.rqs[c].update <==> Enabled(s, TickFold(c)))
      && (s.jiffies >= s.rqs[c].update <==> Enabled(s, IdleExit(c)))
  {
    hide Handed, SumSlot, Fresh, Conserved, Reads, Product;
  }

  // ----- the CPUs' own windows

  /** A CPU that wakes up inside or after its window takes the global one, or the next if that has only just opened or
      is still to open, so that it does not fold again in the window it slept through. */
  lemma ExitExact(s: State, c: nat)
    requires c < |s.rqs| && s.rqs[c].pc.Quiet? && s.jiffies >= s.rqs[c].update
    ensures Enabled(s, IdleExit(c)) && Enabled(Next(s, IdleExit(c)), IdleSync(c))
    ensures var e := Next(Next(s, IdleExit(c)), IdleSync(c));
            && OnlyCpu(s, e, c) && e.tasks == s.tasks && e.idle == s.idle && e.deposits == s.deposits
            && var r, q := s.rqs[c], e.rqs[c];
               && q == r.(update := q.update)
               && q.update == (if s.jiffies < s.update + 10 then s.update + 5 * s.hz + 1 else s.update)
               && (s.hz >= 2 && s.jiffies < s.update + 10 ==> s.jiffies < q.update)
  {
  }

  ghost predicate InPhase(s: State, update: nat)
  {
    exists k: nat :: update == s.first + Product(k, LoadFreq(s.hz))
  }

  ghost predicate AllInPhase(s: State)
  {
    forall c :: 0 <= c < |s.rqs| ==> InPhase(s, s.rqs[c].update)
  }

  lemma NextPhase(s: State, update: nat)
    requires InPhase(s, update)
    ensures InPhase(s, update + LoadFreq(s.hz))
  {
    hide LoadFreq;
    var k: nat :| update == s.first + Product(k, LoadFreq(s.hz));
    ProductLaws(k, 1, LoadFreq(s.hz));
    hide Product;
    assert update + LoadFreq(s.hz) == s.first + Product(k + 1, LoadFreq(s.hz));
  }

  /** A CPU's window stays, moves by one period, or becomes the global one. */
  lemma UpdateIs(s: State, step: Step, c: nat)
    requires Enabled(s, step) && c < |s.rqs|
    ensures |Next(s, step).rqs| == |s.rqs|
    ensures var u := Next(s, step).rqs[c].update;
            u == s.rqs[c].update || u == s.rqs[c].update + LoadFreq(s.hz) || u == s.update
  {
    hide LoadFreq, WriteSlot, WithoutSlot, Missed;
  }

  lemma PhaseOk(s: State, step: Step)
    requires Inv(s) && AllInPhase(s) && Enabled(s, step)
    ensures AllInPhase(Next(s, step))
  {
    hide Slots, Conserved, Fresh, Reads, InPhase, Product, LoadFreq, Next, Enabled;
    var e := Next(s, step);
    SameBase(s, step);
    CpusKept(s, step);
    GlobalInPhase(s);
    forall c | 0 <= c < |e.rqs|
      ensures InPhase(e, e.rqs[c].update)
    {
      assert InPhase(s, s.rqs[c].update);
      NextPhase(s, s.rqs[c].update);
      UpdateIs(s, step, c);
      PhaseFrame(s, e, e.rqs[c].update);
    }
  }

  lemma GlobalInPhase(s: State)
    requires Window(s)
    ensures InPhase(s, s.update)
  {
    hide Product, LoadFreq;
  }

  lemma PhaseFrame(s: State, e: State, update: nat)
    requires e.first == s.first && e.hz == s.hz && InPhase(s, update)
    ensures InPhase(e, update)
  {
  }

  lemma {:induction false} ExecutePhase(s: State, steps: seq<Step>)
    requires Inv(s) && AllInPhase(s)
    ensures AllInPhase(Execute(s, steps))
    decreases |steps|
  {
    hide Inv, Next, Enabled, AllInPhase;
    if steps != [] {
      if Enabled(s, steps[0]) {
        PhaseOk(s, steps[0]);
        NextOk(s, steps[0]);
        ExecutePhase(Next(s, steps[0]), steps[1..]);
      } else {
        ExecutePhase(s, steps[1..]);
      }
    }
  }

  /** Over every interleaving each CPU's window is a whole number of periods after the first one, as the global window
      is, however often the CPU slept. */
  lemma EveryCpuWindow(hz: nat, n: nat, jiffies: nat, steps: seq<Step>, s: State)
    requires s == Execute(Boot(hz, n, jiffies), steps)
    ensures forall c :: 0 <= c < |s.rqs| ==>
      exists k: nat :: s.rqs[c].update == jiffies + LoadFreq(hz) + Product(k, LoadFreq(hz))
  {
    hide Execute, LoadFreq, Inv, Product;
    var b := Boot(hz, n, jiffies);
    BootOk(hz, n, jiffies);
    BootPhase(hz, n, jiffies);
    ExecutePhase(b, steps);
    ExecuteOk(b, steps);
    forall c | 0 <= c < |s.rqs|
      ensures exists k: nat :: s.rqs[c].update == jiffies + LoadFreq(hz) + Product(k, LoadFreq(hz))
    {
      assert InPhase(s, s.rqs[c].update);
      var k: nat :| s.rqs[c].update == s.first + Product(k, LoadFreq(s.hz));
    }
  }

  lemma BootPhase(hz: nat, n: nat, jiffies: nat)
    ensures AllInPhase(Boot(hz, n, jiffies))
  {
    hide LoadFreq;
    var b := Boot(hz, n, jiffies);
    ProductLaws(0, 0, LoadFreq(hz));
    hide Product;
    assert b.first == b.first + Product(0, LoadFreq(b.hz));
  }
}
