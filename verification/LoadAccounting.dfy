/**
 The distributed count of active tasks behind the load average, as a state machine: CPUs fold their counts from
 the tick or on going idle, idle CPUs deposit into one of two slots, and one caller drains a slot per window.
 Every read and every update of what CPUs share is a step of its own, so deltas can be in flight anywhere.
 */
module LoadAccounting {
  import opened Basics

  /** LOAD_FREQ: five seconds and a tick, for any HZ. */
  function LoadFreq(hz: nat): (f: nat)
    ensures f > 0
  {
    5 * hz + 1
  }

  /** Where a CPU is inside `calc_load_account_active`, `calc_load_enter_idle` or `calc_load_exit_idle`: the delta it
      carries, the index it read (`seen`: how many global steps there had been then), the jiffies it read, whether it
      found the window still closed, and the number of that window. */
  datatype CpuPc =
    | Quiet
    | TickFolded(delta: int)
    | IdleFolded(delta: int)
    | IdleIndexed(delta: int, idx: nat, seen: nat)
    | IdleTimed(delta: int, idx: nat, seen: nat, now: nat)
    | IdleChosen(delta: int, idx: nat, seen: nat, early: bool, window: nat)
    | Syncing

  datatype Rq = Rq(nrRunning: nat, nrUninterruptible: int, active: int, update: nat, pc: CpuPc)

  /** Where the caller of `calc_global_load` is. */
  datatype GlobalPc =
    | Outside
    | Passed
    | SawWork
    | Drained(delta: int)
    | Folded
    | Moved
    | Behind
    | Advanced

  /** History only: a deposit still in its slot, how many drains had happened when it was made, the index its CPU had
      read, the window whose opening time it had read and whether that was still to come. */
  datatype Deposit = Deposit(slot: nat, delta: int, stamp: nat, idx: nat, window: nat, early: bool)

  /** The drain the source means a deposit for: that of its window if it was made before the window opened, and
      otherwise the one after. */
  function Due(d: Deposit): nat
  {
    if d.early then d.window else d.window + 1
  }

  /** The first drain of the deposit's slot from the deposit on. */
  function TakenBy(d: Deposit): nat
  {
    if d.stamp % 2 == d.slot then d.stamp else d.stamp + 1
  }

  /** `first`, `moves`, `lastRead`, `steps`, `deposits` and `drains` are history: the first opening time, the periods
      the window has moved since, the jiffies it was last set by, the global steps and drains so far. */
  datatype State = State(
    hz: nat,
    rqs: seq<Rq>,
    tasks: int,
    idle: seq<int>,
    idx: nat,
    update: nat,
    jiffies: nat,
    pc: GlobalPc,
    deposits: seq<Deposit>,
    drains: nat,
    first: nat,
    moves: nat,
    lastRead: nat,
    steps: nat)

  datatype Step =
    | Jiffy
    | SetCounts(cpu: nat, running: nat, uninterruptible: int)
    | TickFold(cpu: nat)
    | TickAdd(cpu: nat)
    | IdleFold(cpu: nat)
    | IdleReadIndex(cpu: nat)
    | IdleReadJiffies(cpu: nat)
    | IdleReadUpdate(cpu: nat)
    | IdleDeposit(cpu: nat)
    | IdleExit(cpu: nat)
    | IdleSync(cpu: nat)
    | RemoveCpu(cpu: nat)
    | GlobalEnter
    | GlobalRead
    | GlobalExchange
    | GlobalAdd
    | GlobalMove
    | GlobalTest
    | GlobalCatchUp
    | GlobalFlip

  function Pending(pc: CpuPc): int
  {
    if pc.Quiet? || pc.Syncing? then 0 else pc.delta
  }

  /** `calc_load_fold_active`. */
  function Fold(r: Rq): (f: (Rq, int))
    ensures f.0.active == r.active + f.1
  {
    var now := r.nrRunning + r.nrUninterruptible;
    (r.(active := now), now - r.active)
  }

  /** `calc_load_write_idx`, from the index read and whether the window was still closed. */
  function WriteSlot(idx: nat, early: bool): (slot: nat)
    ensures slot < 2
  {
    (if early then idx else idx + 1) % 2
  }

  /** How many periods `calc_global_nohz` catches up. */
  function Missed(update: nat, jiffies: nat, freq: nat): nat
    requires freq > 0 && jiffies >= update + 10
  {
    1 + (jiffies - update - 10) / freq
  }

  function WithoutSlot(ds: seq<Deposit>, slot: nat): (r: seq<Deposit>)
    ensures forall d :: d in r <==> d in ds && d.slot != slot
  {
    if ds == [] then []
    else if ds[0].slot == slot then WithoutSlot(ds[1..], slot)
    else [ds[0]] + WithoutSlot(ds[1..], slot)
  }

  /** The window has been moved but the index not yet flipped. */
  predicate MidFlip(pc: GlobalPc)
  {
    pc.Moved? || pc.Behind? || pc.Advanced?
  }

  /** The number of the window that opens at `update`: the window moves first and the index follows. */
  function WindowOf(s: State): nat
  {
    s.idx + if MidFlip(s.pc) then 1 else 0
  }

  /** No global step has come between the read of the index and the deposit, and none was half way through the flip. */
  predicate Clean(s: State, pc: CpuPc)
    requires pc.IdleChosen?
  {
    pc.seen == s.steps && !MidFlip(s.pc)
  }

  predicate Enabled(s: State, step: Step)
  {
    match step
    case Jiffy => true
    case SetCounts(c, _, _) => c < |s.rqs|
    case TickFold(c) => c < |s.rqs| && s.rqs[c].pc.Quiet? && s.jiffies >= s.rqs[c].update
    case TickAdd(c) => c < |s.rqs| && s.rqs[c].pc.TickFolded?
    case IdleFold(c) => c < |s.rqs| && s.rqs[c].pc.Quiet?
    case IdleReadIndex(c) => c < |s.rqs| && s.rqs[c].pc.IdleFolded?
    case IdleReadJiffies(c) => c < |s.rqs| && s.rqs[c].pc.IdleIndexed?
    case IdleReadUpdate(c) => c < |s.rqs| && s.rqs[c].pc.IdleTimed?
    case IdleDeposit(c) => c < |s.rqs| && s.rqs[c].pc.IdleChosen? && |s.idle| == 2
    case IdleExit(c) => c < |s.rqs| && s.rqs[c].pc.Quiet? && s.jiffies >= s.rqs[c].update
    case IdleSync(c) => c < |s.rqs| && s.rqs[c].pc.Syncing?
    case RemoveCpu(c) => c < |s.rqs| && s.rqs[c].pc.Quiet?
    case GlobalEnter => s.pc.Outside? && s.jiffies >= s.update + 10
    case GlobalRead => s.pc.Passed? && |s.idle| == 2
    case GlobalExchange => s.pc.SawWork? && |s.idle| == 2
    case GlobalAdd => s.pc.Drained?
    case GlobalMove => s.pc.Folded?
    case GlobalTest => s.pc.Moved?
    case GlobalCatchUp => s.pc.Behind? && s.jiffies >= s.update + 10
    case GlobalFlip => s.pc.Advanced?
  }

  function SetPc(s: State, c: nat, pc: CpuPc): State
    requires c < |s.rqs|
  {
    s.(rqs := s.rqs[c := s.rqs[c].(pc := pc)])
  }

  /** The steps of one CPU, and time. */
  function NextLocal(s: State, step: Step): State
    requires Enabled(s, step) && !Global(step)
  {
    match step
    case Jiffy => s.(jiffies := s.jiffies + 1)
    case SetCounts(c, n, u) => s.(rqs := s.rqs[c := s.rqs[c].(nrRunning := n, nrUninterruptible := u)])
    case TickFold(c) =>
      var (r, delta) := Fold(s.rqs[c]);
      s.(rqs := s.rqs[c := r.(pc := TickFolded(delta))])
    case TickAdd(c) =>
      var r := s.rqs[c];
      s.(tasks := s.tasks + r.pc.delta, rqs := s.rqs[c := r.(pc := Quiet, update := r.update + LoadFreq(s.hz))])
    case IdleFold(c) =>
      var (r, delta) := Fold(s.rqs[c]);
      s.(rqs := s.rqs[c := r.(pc := if delta == 0 then Quiet else IdleFolded(delta))])
    case IdleReadIndex(c) => SetPc(s, c, IdleIndexed(s.rqs[c].pc.delta, s.idx, s.steps))
    case IdleReadJiffies(c) =>
      var pc := s.rqs[c].pc;
      SetPc(s, c, IdleTimed(pc.delta, pc.idx, pc.seen, s.jiffies))
    case IdleReadUpdate(c) =>
      var pc := s.rqs[c].pc;
      SetPc(s, c, IdleChosen(pc.delta, pc.idx, pc.seen, pc.now < s.update, WindowOf(s)))
    case IdleDeposit(c) => DepositBy(s, c)
    case IdleExit(c) => s.(rqs := s.rqs[c := s.rqs[c].(update := s.update, pc := Syncing)])
    case IdleSync(c) =>
      var r := s.rqs[c];
      var update := if s.jiffies < r.update + 10 then r.update + LoadFreq(s.hz) else r.update;
      s.(rqs := s.rqs[c := r.(pc := Quiet, update := update)])
    case RemoveCpu(c) => s.(tasks := s.tasks - s.rqs[c].active, rqs := s.rqs[c := s.rqs[c].(active := 0)])
    case _ => s
  }

  function DepositBy(s: State, c: nat): State
    requires c < |s.rqs| && s.rqs[c].pc.IdleChosen? && |s.idle| == 2
  {
    var pc := s.rqs[c].pc;
    var slot := WriteSlot(pc.idx, pc.early);
    var d := Deposit(slot, pc.delta, s.drains, pc.idx, pc.window, pc.early);
    SetPc(s, c, Quiet).(idle := s.idle[slot := s.idle[slot] + pc.delta], deposits := s.deposits + [d])
  }

  predicate Global(step: Step)
  {
    step.GlobalEnter? || step.GlobalRead? || step.GlobalExchange? || step.GlobalAdd? || step.GlobalMove?
    || step.GlobalTest? || step.GlobalCatchUp? || step.GlobalFlip?
  }

  /** The steps of `calc_global_load`. */
  function NextGlobal(s: State, step: Step): State
    requires Enabled(s, step) && Global(step)
  {
    var freq := LoadFreq(s.hz);
    match step
    case GlobalEnter => s.(pc := Passed)
    case GlobalRead =>
      if s.idle[s.idx % 2] == 0
      then s.(pc := Folded, deposits := WithoutSlot(s.deposits, s.idx % 2), drains := s.drains + 1)
      else s.(pc := SawWork)
    case GlobalExchange =>
      s.(pc := Drained(s.idle[s.idx % 2]), idle := s.idle[s.idx % 2 := 0],
         deposits := WithoutSlot(s.deposits, s.idx % 2), drains := s.drains + 1)
    case GlobalAdd => s.(tasks := s.tasks + s.pc.delta, pc := Folded)
    case GlobalMove => s.(update := s.update + freq, moves := s.moves + 1, pc := Moved)
    case GlobalTest =>
      if s.jiffies < s.update + 10 then s.(pc := Advanced, lastRead := s.jiffies) else s.(pc := Behind)
    case GlobalCatchUp =>
      var n := Missed(s.update, s.jiffies, freq);
      s.(update := s.update + Product(n, freq), moves := s.moves + n, pc := Advanced, lastRead := s.jiffies)
    case GlobalFlip => s.(idx := s.idx + 1, pc := Outside)
    case _ => s
  }

  function Next(s: State, step: Step): State
    requires Enabled(s, step)
  {
    if Global(step) then NextGlobal(s, step).(steps := s.steps + 1) else NextLocal(s, step)
  }

  // ----- conservation

  /** What the CPUs have accounted and handed on. */
  function Handed(rqs: seq<Rq>, n: nat): int
    requires n <= |rqs|
  {
    if n == 0 then 0 else Handed(rqs, n - 1) + rqs[n - 1].active - Pending(rqs[n - 1].pc)
  }

  lemma {:induction false} HandedUpdate(rqs: seq<Rq>, c: nat, r: Rq, n: nat)
    requires c < |rqs| && n <= |rqs|
    ensures Handed(rqs[c := r], n) == Handed(rqs, n)
      + if c < n then (r.active - Pending(r.pc)) - (rqs[c].active - Pending(rqs[c].pc)) else 0
  {
    if n > 0 {
      HandedUpdate(rqs, c, r, n - 1);
    }
  }

  function SumSlot(ds: seq<Deposit>, slot: nat): int
  {
    if ds == [] then 0 else (if ds[0].slot == slot then ds[0].delta else 0) + SumSlot(ds[1..], slot)
  }

  lemma {:induction false} SumSlotAppend(ds: seq<Deposit>, d: Deposit, slot: nat)
    ensures SumSlot(ds + [d], slot) == SumSlot(ds, slot) + if d.slot == slot then d.delta else 0
  {
    if ds == [] {
      assert ds + [d] == [d];
    } else {
      assert (ds + [d])[1..] == ds[1..] + [d];
      SumSlotAppend(ds[1..], d, slot);
    }
  }

  lemma {:induction false} SumSlotWithout(ds: seq<Deposit>, slot: nat, other: nat)
    ensures SumSlot(WithoutSlot(ds, slot), other) == if slot == other then 0 else SumSlot(ds, other)
  {
    if ds != [] {
      SumSlotWithout(ds[1..], slot, other);
      if ds[0].slot != slot {
        assert WithoutSlot(ds, slot)[1..] == WithoutSlot(ds[1..], slot);
      }
    }
  }

  ghost predicate Conserved(s: State)
    requires |s.idle| == 2
  {
    s.tasks + s.idle[0] + s.idle[1] + (if s.pc.Drained? then s.pc.delta else 0) == Handed(s.rqs, |s.rqs|)
  }

  /** The caller is past this window's drain. */
  predicate PastDrain(pc: GlobalPc)
  {
    pc.Drained? || pc.Folded? || MidFlip(pc)
  }

  ghost predicate Slots(s: State)
  {
    && |s.idle| == 2
    && (forall d :: d in s.deposits ==> d.slot < 2)
    && s.idle[0] == SumSlot(s.deposits, 0) && s.idle[1] == SumSlot(s.deposits, 1)
  }

  /** The k-th drain is of slot k mod 2, and the drain that takes a deposit has not happened. */
  ghost predicate Fresh(s: State)
  {
    && s.drains == s.idx + (if PastDrain(s.pc) then 1 else 0)
    && forall d :: d in s.deposits ==> DepositOk(d, s.drains)
  }

  predicate DepositOk(d: Deposit, drains: nat)
  {
    && d.stamp <= drains <= TakenBy(d)
    && d.slot == WriteSlot(d.idx, d.early)
    && d.idx <= d.window
    && Due(d) <= d.stamp + 1
  }

  /** The caller has found the window open and has not yet moved it. */
  predicate Open(pc: GlobalPc)
  {
    pc.Passed? || pc.SawWork? || pc.Drained? || pc.Folded?
  }

  /** What a CPU on its way to a deposit has read, as long as no global step has come between. */
  predicate ReadOk(s: State, pc: CpuPc)
  {
    && (pc.IdleIndexed? || pc.IdleTimed? || pc.IdleChosen? ==>
          pc.idx <= s.idx && pc.seen <= s.steps && (pc.seen == s.steps ==> pc.idx == s.idx))
    && (pc.IdleChosen? ==> pc.idx <= pc.window <= s.drains && (pc.seen == s.steps ==> pc.window == WindowOf(s)))
    && (pc.IdleTimed? && pc.seen == s.steps && Open(s.pc) ==> pc.now >= s.update)
    && (pc.IdleChosen? && pc.seen == s.steps && Open(s.pc) ==> !pc.early)
  }

  ghost predicate Reads(s: State)
  {
    forall c :: 0 <= c < |s.rqs| ==> ReadOk(s, s.rqs[c].pc)
  }

  /** The window: it has moved by whole periods since `first`; it is open where the caller found it so; and whenever
      it is not being moved it ends within one period of the jiffies it was last set by. */
  ghost predicate Window(s: State)
  {
    var freq := LoadFreq(s.hz);
    && s.update == s.first + Product(s.moves, freq)
    && s.lastRead <= s.jiffies
    && (Open(s.pc) || s.pc.Behind? ==> s.jiffies >= s.update + 10)
    && (s.pc.Moved? ==> s.jiffies >= s.update + 10 - freq)
    && (s.moves > 0 && !s.pc.Moved? && !s.pc.Behind? ==> s.update + 10 - freq <= s.lastRead < s.update + 10)
  }

  ghost predicate Inv(s: State)
  {
    Slots(s) && Conserved(s) && Fresh(s) && Window(s) && Reads(s)
  }

  lemma LocalConserves(s: State, step: Step)
    requires Inv(s) && Enabled(s, step) && !Global(step)
    ensures |NextLocal(s, step).idle| == 2 && Conserved(NextLocal(s, step))
  {
    hide Handed, SumSlot, Window, Fresh, Reads;
    var t := NextLocal(s, step);
    if !step.Jiffy? {
      HandedUpdate(s.rqs, step.cpu, t.rqs[step.cpu], |s.rqs|);
    }
  }

  lemma GlobalConserves(s: State, step: Step)
    requires Inv(s) && Enabled(s, step) && Global(step)
    ensures |NextGlobal(s, step).idle| == 2 && Conserved(NextGlobal(s, step))
  {
    hide Handed, SumSlot, WithoutSlot, Missed, Product, Window, Fresh, Reads;
  }

  // ----- slots and drains

  lemma LocalSlots(s: State, step: Step)
    requires Inv(s) && Enabled(s, step) && !Global(step)
    ensures Slots(NextLocal(s, step)) && Fresh(NextLocal(s, step))
  {
    hide Handed, SumSlot, Window, Conserved;
    if step.IdleDeposit? {
      DepositSlots(s, step.cpu);
    }
  }

  lemma DepositSlots(s: State, c: nat)
    requires Inv(s) && Enabled(s, IdleDeposit(c))
    ensures Slots(DepositBy(s, c)) && Fresh(DepositBy(s, c))
  {
    hide Handed, SumSlot, Window, Conserved, DepositOk;
    var e := DepositBy(s, c);
    var d := e.deposits[|s.deposits|];
    SumSlotAppend(s.deposits, d, 0);
    SumSlotAppend(s.deposits, d, 1);
    CleanDeposit(s, c);
  }

  /** A deposit is taken by the first drain of its slot, and that is the drain the source means it for exactly if an
      even number of flips came between the index its CPU read and the window it read, and that drain was still to
      come. */
  lemma TakenAsMeantIff(d: Deposit, drains: nat)
    requires DepositOk(d, drains)
    ensures TakenBy(d) == Due(d) <==> (d.window - d.idx) % 2 == 0 && d.stamp <= Due(d)
    ensures d.slot == Due(d) % 2 <==> (d.window - d.idx) % 2 == 0
  {
  }

  /** Without a global step between the read of the index and the deposit, and outside the flip, a deposit made while
      the window is closed is taken by the very next drain; one made while it is open by the drain after the one of
      this window, done or still to come. */
  lemma CleanDeposit(s: State, c: nat)
    requires Inv(s) && Enabled(s, IdleDeposit(c))
    ensures var d := DepositBy(s, c).deposits[|s.deposits|];
            && DepositOk(d, s.drains)
            && (Clean(s, s.rqs[c].pc) ==>
                  && TakenBy(d) == Due(d)
                  && Due(d) == if d.early || PastDrain(s.pc) then s.drains else s.drains + 1)
  {
    hide Handed, SumSlot, Slots, Conserved, Window;
    assert ReadOk(s, s.rqs[c].pc);
  }

  lemma GlobalSlots(s: State, step: Step)
    requires Inv(s) && Enabled(s, step) && Global(step)
    ensures Slots(NextGlobal(s, step)) && Fresh(NextGlobal(s, step))
  {
    hide Handed, SumSlot, WithoutSlot, Missed, Product, Window, Conserved, Reads, DepositOk;
    if step.GlobalRead? || step.GlobalExchange? {
      DrainOk(s);
    }
  }

  /** The drain of slot idx leaves only deposits that the next drain will take. */
  lemma DrainOk(s: State)
    requires Slots(s) && Fresh(s) && !PastDrain(s.pc)
    ensures var ds := WithoutSlot(s.deposits, s.idx % 2);
            && (forall d :: d in ds ==> d.slot < 2 && DepositOk(d, s.drains + 1))
            && SumSlot(ds, 0) == (if s.idx % 2 == 0 then 0 else s.idle[0])
            && SumSlot(ds, 1) == (if s.idx % 2 == 1 then 0 else s.idle[1])
  {
    hide SumSlot, DepositOk, TakenBy;
    SumSlotWithout(s.deposits, s.idx % 2, 0);
    SumSlotWithout(s.deposits, s.idx % 2, 1);
    forall d | d in WithoutSlot(s.deposits, s.idx % 2) ensures d.slot < 2 && DepositOk(d, s.drains + 1) {
      TurnIs(d, s.drains);
    }
  }

  /** A deposit's turn comes with the first drain of its slot; any other leaves it in order. */
  lemma TurnIs(d: Deposit, drains: nat)
    requires DepositOk(d, drains)
    ensures d.slot == drains % 2 <==> TakenBy(d) == drains
    ensures d.slot != drains % 2 ==> DepositOk(d, drains + 1)
  {
  }

  /** A drain takes exactly the deposits whose turn it is. */
  lemma TakenInTurn(s: State, step: Step, d: Deposit)
    requires Inv(s) && Enabled(s, step) && Next(s, step).drains == s.drains + 1
    requires d in s.deposits
    ensures d in Next(s, step).deposits <==> TakenBy(d) != s.drains
  {
    hide Handed, SumSlot, Conserved, Window, Reads, Missed, Product, DepositOk, TakenBy, NextLocal;
    LocalNoDrain(s, step);
    TurnIs(d, s.drains);
  }

  lemma LocalNoDrain(s: State, step: Step)
    requires Enabled(s, step)
    ensures !Global(step) ==> NextLocal(s, step).drains == s.drains
  {
  }

  // ----- the window

  lemma MissedBound(update: nat, jiffies: nat, freq: nat)
    requires freq > 0 && jiffies >= update + 10
    ensures var next := update + Product(Missed(update, jiffies, freq), freq);
            next + 10 - freq <= jiffies < next + 10
  {
    var d := jiffies - update - 10;
    var q := d / freq;
    assert q * freq <= d < q * freq + freq;
    ProductLaws(q, 1, freq);
  }

  lemma LocalWindow(s: State, step: Step)
    requires Inv(s) && Enabled(s, step) && !Global(step)
    ensures Window(NextLocal(s, step))
  {
    hide Handed, SumSlot, Slots, Fresh, Conserved, Reads, Product;
  }

  /** After every passing call the window ends within one period of the time it was set by, in the phase it had. */
  lemma GlobalWindow(s: State, step: Step)
    requires Inv(s) && Enabled(s, step) && Global(step)
    ensures Window(NextGlobal(s, step))
    ensures NextGlobal(s, step).pc.Advanced? ==>
              && s.jiffies < NextGlobal(s, step).update + 10
              && NextGlobal(s, step).update + 10 - LoadFreq(s.hz) <= s.jiffies
  {
    hide Handed, SumSlot, Slots, Fresh, Conserved, Reads, WithoutSlot, Missed, Product;
    var freq := LoadFreq(s.hz);
    if step.GlobalMove? {
      ProductLaws(s.moves, 1, freq);
    } else if step.GlobalCatchUp? {
      var n := Missed(s.update, s.jiffies, freq);
      MissedBound(s.update, s.jiffies, freq);
      ProductLaws(s.moves, n, freq);
    }
  }

  // ----- what the CPUs have read

  lemma LocalReads(s: State, step: Step)
    requires Inv(s) && Enabled(s, step) && !Global(step)
    ensures Reads(NextLocal(s, step))
  {
    hide Handed, SumSlot, Slots, Conserved, Product, DepositOk, WriteSlot, Fold, LoadFreq;
    var t := NextLocal(s, step);
    forall c | 0 <= c < |t.rqs| ensures ReadOk(t, t.rqs[c].pc) {
      assert ReadOk(s, s.rqs[c].pc);
    }
  }

  lemma GlobalReads(s: State, step: Step)
    requires Inv(s) && Enabled(s, step) && Global(step)
    ensures Reads(Next(s, step))
  {
    hide Handed, SumSlot, Slots, Fresh, Conserved, Window, WithoutSlot, Missed, Product;
    var t := Next(s, step);
    forall c | 0 <= c < |t.rqs| ensures ReadOk(t, t.rqs[c].pc) {
      assert ReadOk(s, s.rqs[c].pc);
    }
  }

  lemma NextOk(s: State, step: Step)
    requires Inv(s) && Enabled(s, step)
    ensures Inv(Next(s, step))
  {
    hide Enabled, NextLocal, NextGlobal, DepositOk;
    if Global(step) {
      GlobalConserves(s, step);
      GlobalSlots(s, step);
      GlobalWindow(s, step);
      GlobalReads(s, step);
    } else {
      LocalConserves(s, step);
      LocalSlots(s, step);
      LocalWindow(s, step);
      LocalReads(s, step);
    }
  }

  // ----- every interleaving

  /** Boot: n quiet CPUs, nothing accounted. */
  function Boot(hz: nat, n: nat, jiffies: nat): State
  {
    var first := jiffies + LoadFreq(hz);
    var rqs := seq(n, _ => Rq(0, 0, 0, first, Quiet));
    State(hz, rqs, 0, [0, 0], 0, first, jiffies, Outside, [], 0, first, 0, jiffies, 0)
  }

  lemma {:induction false} BootHanded(rqs: seq<Rq>, n: nat)
    requires n <= |rqs| && forall i :: 0 <= i < |rqs| ==> rqs[i].active == 0 && rqs[i].pc.Quiet?
    ensures Handed(rqs, n) == 0
  {
    if n > 0 {
      BootHanded(rqs, n - 1);
    }
  }

  lemma BootOk(hz: nat, n: nat, jiffies: nat)
    ensures Inv(Boot(hz, n, jiffies))
  {
    var b := Boot(hz, n, jiffies);
    BootHanded(b.rqs, |b.rqs|);
    ProductLaws(0, 0, LoadFreq(hz));
  }

  function Execute(s: State, steps: seq<Step>): State
    decreases |steps|
  {
    if steps == [] then s else Execute(if Enabled(s, steps[0]) then Next(s, steps[0]) else s, steps[1..])
  }

  lemma {:induction false} ExecuteOk(s: State, steps: seq<Step>)
    requires Inv(s)
    ensures Inv(Execute(s, steps))
    ensures Execute(s, steps).hz == s.hz && Execute(s, steps).first == s.first
    decreases |steps|
  {
    hide Inv, Next, Enabled;
    if steps != [] {
      if Enabled(s, steps[0]) {
        NextOk(s, steps[0]);
        SameBase(s, steps[0]);
        ExecuteOk(Next(s, steps[0]), steps[1..]);
      } else {
        ExecuteOk(s, steps[1..]);
      }
    }
  }

  lemma SameBase(s: State, step: Step)
    requires Enabled(s, step)
    ensures Next(s, step).hz == s.hz && Next(s, step).first == s.first
  {
  }

  function SumActive(rqs: seq<Rq>, n: nat): int
    requires n <= |rqs|
  {
    if n == 0 then 0 else SumActive(rqs, n - 1) + rqs[n - 1].active
  }

  function SumPending(rqs: seq<Rq>, n: nat): int
    requires n <= |rqs|
  {
    if n == 0 then 0 else SumPending(rqs, n - 1) + Pending(rqs[n - 1].pc)
  }

  lemma {:induction false} HandedIs(rqs: seq<Rq>, n: nat)
    requires n <= |rqs|
    ensures Handed(rqs, n) == SumActive(rqs, n) - SumPending(rqs, n)
  {
    if n > 0 {
      HandedIs(rqs, n - 1);
    }
  }

  /** Over every interleaving: the global count, both slots and all deltas in flight add up to what the CPUs
      have accounted; a deposit still in a slot has seen at most one drain, the next one being of its slot, so every
      deposit is drained within two passing calls; and it is taken by the drain the source means it for exactly if an
      even number of flips came between the index and the window its CPU read, and it was not too late. */
  lemma EveryInterleaving(hz: nat, n: nat, jiffies: nat, steps: seq<Step>, s: State)
    requires s == Execute(Boot(hz, n, jiffies), steps)
    ensures |s.idle| == 2
    ensures s.tasks + s.idle[0] + s.idle[1] + (if s.pc.Drained? then s.pc.delta else 0)
        + SumPending(s.rqs, |s.rqs|) == SumActive(s.rqs, |s.rqs|)
    ensures s.idle[0] == SumSlot(s.deposits, 0) && s.idle[1] == SumSlot(s.deposits, 1)
    ensures forall d :: d in s.deposits ==>
      s.drains == d.stamp || (s.drains == d.stamp + 1 && d.slot == s.drains % 2)
    ensures forall d :: d in s.deposits ==>
      s.drains <= TakenBy(d) && (TakenBy(d) == Due(d) <==> (d.window - d.idx) % 2 == 0 && d.stamp <= Due(d))
    ensures s.drains == s.idx + (if PastDrain(s.pc) then 1 else 0)
  {
    hide Execute, Window, Reads, Handed, SumSlot, SumActive, SumPending;
    BootOk(hz, n, jiffies);
    ExecuteOk(Boot(hz, n, jiffies), steps);
    HandedIs(s.rqs, |s.rqs|);
    forall d | d in s.deposits
      ensures DepositOk(d, s.drains)
      ensures TakenBy(d) == Due(d) <==> (d.window - d.idx) % 2 == 0 && d.stamp <= Due(d)
    {
      TakenAsMeantIff(d, s.drains);
    }
  }

  /** Over every interleaving: the window has moved by whole periods from where it was at boot, and from the first
      passing call on, whenever it is not just being moved, it ends within one period of the jiffies it was last
      set by. */
  lemma EveryWindow(hz: nat, n: nat, jiffies: nat, steps: seq<Step>, s: State)
    requires s == Execute(Boot(hz, n, jiffies), steps)
    ensures s.update == jiffies + LoadFreq(hz) + Product(s.moves, LoadFreq(hz))
    ensures s.moves > 0 && !s.pc.Moved? && !s.pc.Behind? ==>
              s.update + 10 - LoadFreq(hz) <= s.lastRead < s.update + 10 && s.lastRead <= s.jiffies
    ensures Open(s.pc) ==> s.jiffies >= s.update + 10
  {
    hide Execute, Slots, Fresh, Conserved, Reads, Product;
    BootOk(hz, n, jiffies);
    ExecuteOk(Boot(hz, n, jiffies), steps);
  }

  // ----- deposits that miss their drain

  function Jiffies(n: nat): seq<Step>
  {
    if n == 0 then [] else [Jiffy] + Jiffies(n - 1)
  }

  lemma {:induction false} AfterJiffies(s: State, n: nat, rest: seq<Step>)
    ensures Execute(s, Jiffies(n) + rest) == Execute(s.(jiffies := s.jiffies + n), rest)
    decreases n
  {
    hide NextGlobal, DepositBy;
    if n == 0 {
      assert Jiffies(0) + rest == rest;
    } else {
      var steps := Jiffies(n) + rest;
      assert steps[0] == Jiffy && steps[1..] == Jiffies(n - 1) + rest;
      AfterJiffies(s.(jiffies := s.jiffies + 1), n - 1, rest);
    }
  }

  lemma ExecuteOne(s: State, step: Step, rest: seq<Step>)
    requires Enabled(s, step)
    ensures Execute(s, [step] + rest) == Execute(Next(s, step), rest)
  {
    assert ([step] + rest)[1..] == rest;
  }

  lemma ExecuteNone(s: State)
    ensures Execute(s, []) == s
  {
  }

  /** The window moves and, before the index flips, a CPU goes idle with one more task than it had accounted: its
      window is closed, yet it deposits into the slot that the next drain passes over. */
  lemma FlipMisplaces(hz: nat, jiffies: nat) returns (steps: seq<Step>)
    requires hz >= 2
    ensures var e := Execute(Boot(hz, 1, jiffies), steps);
            && e.pc.Advanced? && e.jiffies < e.update
            && e.deposits == [Deposit(0, 1, 1, 0, 1, true)]
            && e.drains == Due(e.deposits[0]) == 1 && TakenBy(e.deposits[0]) == 2
  {
    hide Execute, Jiffies;
    var s0 := Boot(hz, 1, jiffies);
    var freq := LoadFreq(hz);
    var deposit := [IdleFold(0), IdleReadIndex(0), IdleReadJiffies(0), IdleReadUpdate(0), IdleDeposit(0)];
    var rest := [SetCounts(0, 1, 0)] + deposit;
    var call := [GlobalEnter, GlobalRead, GlobalMove, GlobalTest];
    steps := Jiffies(freq + 10) + (call + rest);
    AfterJiffies(s0, freq + 10, call + rest);
    var s1 := s0.(jiffies := jiffies + freq + 10);
    MovedBy(s1, rest);
    var s2 := s1.(pc := Advanced, drains := 1, update := s1.update + freq, moves := 1, lastRead := s1.jiffies,
                  steps := 4);
    ExecuteOne(s2, SetCounts(0, 1, 0), deposit);
    CountedBy(s2);
    DepositedBy(Next(s2, SetCounts(0, 1, 0)));
  }

  lemma CountedBy(s: State)
    requires |s.rqs| == 1 && s.rqs[0].pc.Quiet? && s.rqs[0].active == 0
    ensures var e := Next(s, SetCounts(0, 1, 0));
            && |e.rqs| == 1 && e.rqs[0].pc.Quiet? && e.rqs[0].nrRunning == 1
            && e.rqs[0].nrUninterruptible == 0 && e.rqs[0].active == 0
            && e == s.(rqs := e.rqs)
  {
  }

  /** A passing call on an empty slot, up to the flip. */
  lemma MovedBy(s: State, rest: seq<Step>)
    requires s.pc.Outside? && s.idle == [0, 0] && s.deposits == [] && s.jiffies == s.update + 10
    ensures Execute(s, [GlobalEnter, GlobalRead, GlobalMove, GlobalTest] + rest)
         == Execute(s.(pc := Advanced, drains := s.drains + 1, update := s.update + LoadFreq(s.hz),
                       moves := s.moves + 1, lastRead := s.jiffies, steps := s.steps + 4), rest)
  {
    hide Execute, Next, Enabled, LoadFreq;
    var last := [GlobalMove] + ([GlobalTest] + rest);
    var all := [GlobalEnter] + ([GlobalRead] + last);
    assert [GlobalEnter, GlobalRead, GlobalMove, GlobalTest] + rest == all;
    EnteredBy(s, last);
    MoveTested(s.(pc := Folded, drains := s.drains + 1, steps := s.steps + 2), rest);
  }

  lemma EnteredBy(s: State, rest: seq<Step>)
    requires s.pc.Outside? && s.idle == [0, 0] && s.deposits == [] && s.jiffies == s.update + 10
    ensures Execute(s, [GlobalEnter] + ([GlobalRead] + rest))
         == Execute(s.(pc := Folded, drains := s.drains + 1, steps := s.steps + 2), rest)
  {
    hide Execute, NextLocal;
    ExecuteOne(s, GlobalEnter, [GlobalRead] + rest);
    ExecuteOne(Next(s, GlobalEnter), GlobalRead, rest);
  }

  lemma MoveTested(s: State, rest: seq<Step>)
    requires s.pc.Folded? && s.jiffies == s.update + 10
    ensures Execute(s, [GlobalMove] + ([GlobalTest] + rest))
         == Execute(s.(pc := Advanced, update := s.update + LoadFreq(s.hz), moves := s.moves + 1,
                       lastRead := s.jiffies, steps := s.steps + 2), rest)
  {
    hide Execute, NextLocal;
    ExecuteOne(s, GlobalMove, [GlobalTest] + rest);
    ExecuteOne(Next(s, GlobalMove), GlobalTest, rest);
  }

  /** A CPU with one unaccounted task goes idle while its window is closed. */
  lemma DepositedBy(s: State)
    requires |s.rqs| == 1 && s.rqs[0].pc.Quiet?
    requires s.rqs[0].nrRunning + s.rqs[0].nrUninterruptible == s.rqs[0].active + 1
    requires s.idle == [0, 0] && s.deposits == [] && s.jiffies < s.update && MidFlip(s.pc) && s.idx == 0
    ensures var e := Execute(s, [IdleFold(0), IdleReadIndex(0), IdleReadJiffies(0), IdleReadUpdate(0), IdleDeposit(0)]);
            && e.deposits == [Deposit(0, 1, s.drains, 0, 1, true)]
            && e.pc == s.pc && e.jiffies == s.jiffies && e.update == s.update && e.drains == s.drains
  {
    hide Execute;
    var r4: seq<Step> := [IdleDeposit(0)] + [];
    var r3 := [IdleReadUpdate(0)] + r4;
    var r2 := [IdleReadJiffies(0)] + r3;
    var r1 := [IdleReadIndex(0)] + r2;
    assert [IdleFold(0), IdleReadIndex(0), IdleReadJiffies(0), IdleReadUpdate(0), IdleDeposit(0)] == [IdleFold(0)] + r1;
    ExecuteOne(s, IdleFold(0), r1);
    var a := Next(s, IdleFold(0));
    ExecuteOne(a, IdleReadIndex(0), r2);
    var b := Next(a, IdleReadIndex(0));
    ExecuteOne(b, IdleReadJiffies(0), r3);
    var c := Next(b, IdleReadJiffies(0));
    ExecuteOne(c, IdleReadUpdate(0), r4);
    var d := Next(c, IdleReadUpdate(0));
    ExecuteOne(d, IdleDeposit(0), []);
    ExecuteNone(Next(d, IdleDeposit(0)));
  }

  /** A whole passing call comes between the read of the index and that of the window: nothing of the deposit falls
      into the flip, the next window is closed, yet the next drain passes the deposit over. */
  lemma StraddleMisplaces(hz: nat, jiffies: nat) returns (steps: seq<Step>)
    requires hz >= 2
    ensures var e := Execute(Boot(hz, 1, jiffies), steps);
            && e.pc.Outside? && e.jiffies < e.update && e.idx == 1
            && e.deposits == [Deposit(0, 1, 1, 0, 1, true)]
            && e.drains == Due(e.deposits[0]) == 1 && TakenBy(e.deposits[0]) == 2
  {
    hide Execute, Jiffies;
    var s0 := Boot(hz, 1, jiffies);
    var freq := LoadFreq(hz);
    var last := [GlobalFlip] + ([IdleReadJiffies(0)] + ([IdleReadUpdate(0)] + ([IdleDeposit(0)] + [])));
    var call := [GlobalEnter, GlobalRead, GlobalMove, GlobalTest];
    var rest := [SetCounts(0, 1, 0)] + ([IdleFold(0)] + ([IdleReadIndex(0)] + (call + last)));
    steps := Jiffies(freq + 10) + rest;
    AfterJiffies(s0, freq + 10, rest);
    var s1 := s0.(jiffies := jiffies + freq + 10);
    ExecuteOne(s1, SetCounts(0, 1, 0), [IdleFold(0)] + ([IdleReadIndex(0)] + (call + last)));
    CountedBy(s1);
    var s2 := Next(s1, SetCounts(0, 1, 0));
    IndexedBy(s2, call + last);
    var s3 := s2.(rqs := [s2.rqs[0].(active := 1, pc := IdleIndexed(1, 0, 0))]);
    MovedBy(s3, last);
    StraddledBy(s3.(pc := Advanced, drains := 1, update := s3.update + freq, moves := 1, lastRead := s3.jiffies,
                    steps := 4));
  }

  lemma IndexedBy(s: State, rest: seq<Step>)
    requires |s.rqs| == 1 && s.rqs[0].pc.Quiet? && s.rqs[0].nrRunning == 1 && s.rqs[0].nrUninterruptible == 0
    requires s.rqs[0].active == 0 && s.idx == 0 && s.steps == 0
    ensures Execute(s, [IdleFold(0)] + ([IdleReadIndex(0)] + rest))
         == Execute(s.(rqs := [s.rqs[0].(active := 1, pc := IdleIndexed(1, 0, 0))]), rest)
  {
    hide Execute, NextGlobal;
    ExecuteOne(s, IdleFold(0), [IdleReadIndex(0)] + rest);
    var a := Next(s, IdleFold(0));
    ExecuteOne(a, IdleReadIndex(0), rest);
    assert Next(a, IdleReadIndex(0)).rqs == [s.rqs[0].(active := 1, pc := IdleIndexed(1, 0, 0))];
  }

  /** The flip, and then the rest of the deposit. */
  lemma StraddledBy(s: State)
    requires |s.rqs| == 1 && s.rqs[0].pc == IdleIndexed(1, 0, 0) && s.pc.Advanced?
    requires s.idle == [0, 0] && s.deposits == [] && s.jiffies < s.update && s.idx == 0
    ensures var last := [GlobalFlip] + ([IdleReadJiffies(0)] + ([IdleReadUpdate(0)] + ([IdleDeposit(0)] + [])));
            var e := Execute(s, last);
            && e.deposits == [Deposit(0, 1, s.drains, 0, 1, true)] && e.pc.Outside? && e.idx == 1
            && e.jiffies == s.jiffies && e.update == s.update && e.drains == s.drains
  {
    hide Execute;
    var r3: seq<Step> := [IdleDeposit(0)] + [];
    var r2 := [IdleReadUpdate(0)] + r3;
    var r1 := [IdleReadJiffies(0)] + r2;
    ExecuteOne(s, GlobalFlip, r1);
    var a := Next(s, GlobalFlip);
    ExecuteOne(a, IdleReadJiffies(0), r2);
    var b := Next(a, IdleReadJiffies(0));
    ExecuteOne(b, IdleReadUpdate(0), r3);
    var c := Next(b, IdleReadUpdate(0));
    ExecuteOne(c, IdleDeposit(0), []);
    ExecuteNone(Next(c, IdleDeposit(0)));
  }
}
