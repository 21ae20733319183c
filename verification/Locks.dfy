/**
 The locking discipline of the scheduler: any number of threads take and drop run-queue locks and tasks' pi_locks
 through the double locks, `task_rq_lock` and `try_to_wake_up_local`, one atomic lock operation at a time.
 Run queues are named by their position in address order.
 */
module Locks {
  import opened Basics

  datatype Lock = Pi(task: nat) | Rq(cpu: nat)

  /** The lock order: pi_locks below every run queue, run queues by address. */
  function Rank(l: Lock): nat
  {
    match l
    case Pi(_) => 0
    case Rq(c) => 1 + c
  }

  /** What a thread still has to do inside the call it is in. */
  datatype Prog =
    | Done
    | Acquire(lock: Lock, k: Prog)
    | Release(lock: Lock, k: Prog)
    | TryAcquire(lock: Lock, yes: Prog, no: Prog)
    | LoadRq(task: nat, dropPi: bool)
    | CheckRq(task: nat, cpu: nat, dropPi: bool)

  /** `goal` is the lock set the current call promises; `owned` the (task, rq) pair `task_rq_lock` returned. */
  datatype Thread = Thread(held: set<Lock>, prog: Prog, goal: set<Lock>, owned: Option<(nat, nat)>)

  /** `preempt` is CONFIG_PREEMPT; `cpuOf` is task_cpu of every task. */
  datatype State = State(preempt: bool, threads: seq<Thread>, cpuOf: seq<nat>)

  datatype Call =
    | LockPi(task: nat)
    | LockRq(cpu: nat)
    | Drop(lock: Lock)
    | DoubleRqLock(rq1: nat, rq2: nat)
    | DoubleRqUnlock(rq1: nat, rq2: nat)
    | DoubleLockBalance(thisRq: nat, busiest: nat)
    | DoubleUnlockBalance(thisRq: nat, busiest: nat)
    | TaskRqLock(task: nat)
    | TaskRqLockPinned(task: nat)
    | TaskRqUnlock(cpu: nat, task: nat)
    | TryToWakeUpLocal(task: nat, thisRq: nat, isCurrent: bool)

  datatype Step =
    | Begin(thread: nat, call: Call)
    | Run(thread: nat)
    | SetTaskCpu(thread: nat, task: nat, cpu: nat)

  predicate NoRq(held: set<Lock>)
  {
    forall l :: l in held ==> l.Pi?
  }

  /** What each routine demands of its caller. */
  predicate Allowed(s: State, held: set<Lock>, call: Call)
  {
    match call
    case LockPi(_) => held == {}
    case LockRq(_) => NoRq(held)
    case Drop(l) => l in held
    case DoubleRqLock(_, _) => NoRq(held)
    case DoubleRqUnlock(a, b) => Rq(a) in held && Rq(b) in held
    case DoubleLockBalance(own, busiest) =>
      own != busiest && Rq(own) in held && NoRq(held - {Rq(own)})
    case DoubleUnlockBalance(_, busiest) => Rq(busiest) in held
    case TaskRqLock(p) => p < |s.cpuOf| && held == {}
    case TaskRqLockPinned(p) => p < |s.cpuOf| && Pi(p) in held && NoRq(held)
    case TaskRqUnlock(c, p) => Rq(c) in held && Pi(p) in held
    case TryToWakeUpLocal(p, own, _) => p < |s.cpuOf| && held == {Rq(own)}
  }

  /** `double_rq_lock`. */
  function DoubleLock(a: nat, b: nat): Prog
  {
    if a == b then Acquire(Rq(a), Done)
    else if a < b then Acquire(Rq(a), Acquire(Rq(b), Done))
    else Acquire(Rq(b), Acquire(Rq(a), Done))
  }

  /** Both variants of `_double_lock_balance`. */
  function LockBalance(preempt: bool, own: nat, busiest: nat): Prog
  {
    if preempt then Release(Rq(own), DoubleLock(own, busiest))
    else
      TryAcquire(Rq(busiest), Done,
                 if busiest < own
                 then Release(Rq(own), Acquire(Rq(busiest), Acquire(Rq(own), Done)))
                 else Acquire(Rq(busiest), Done))
  }

  /** The lock operations of each routine, in the order the source performs them. */
  function Body(s: State, call: Call): Prog
    requires call.TryToWakeUpLocal? ==> call.task < |s.cpuOf|
  {
    match call
    case LockPi(p) => Acquire(Pi(p), Done)
    case LockRq(c) => Acquire(Rq(c), Done)
    case Drop(l) => Release(l, Done)
    case DoubleRqLock(a, b) => DoubleLock(a, b)
    case DoubleRqUnlock(a, b) => if a == b then Release(Rq(a), Done) else Release(Rq(a), Release(Rq(b), Done))
    case DoubleLockBalance(own, busiest) => LockBalance(s.preempt, own, busiest)
    case DoubleUnlockBalance(_, busiest) => Release(Rq(busiest), Done)
    case TaskRqLock(p) => Acquire(Pi(p), LoadRq(p, true))
    case TaskRqLockPinned(p) => LoadRq(p, false)
    case TaskRqUnlock(c, p) => Release(Rq(c), Release(Pi(p), Done))
    case TryToWakeUpLocal(p, own, isCurrent) =>
      if s.cpuOf[p] != own || isCurrent then Done
      else
        TryAcquire(Pi(p), Release(Pi(p), Done),
                   Release(Rq(own), Acquire(Pi(p), Acquire(Rq(own), Release(Pi(p), Done)))))
  }

  /** The locks a call leaves its caller holding, to which the task locks add the queue they settle on. */
  function Promise(held: set<Lock>, call: Call): set<Lock>
  {
    match call
    case LockPi(p) => held + {Pi(p)}
    case LockRq(c) => held + {Rq(c)}
    case Drop(l) => held - {l}
    case DoubleRqLock(a, b) => held + {Rq(a), Rq(b)}
    case DoubleRqUnlock(a, b) => held - {Rq(a), Rq(b)}
    case DoubleLockBalance(_, busiest) => held + {Rq(busiest)}
    case DoubleUnlockBalance(_, busiest) => held - {Rq(busiest)}
    case TaskRqLock(p) => held + {Pi(p)}
    case TaskRqLockPinned(_) => held
    case TaskRqUnlock(c, p) => held - {Rq(c), Pi(p)}
    case TryToWakeUpLocal(_, _, _) => held
  }

  predicate Held(s: State, l: Lock)
  {
    exists t: nat :: t < |s.threads| && l in s.threads[t].held
  }

  predicate Enabled(s: State, step: Step)
  {
    && step.thread < |s.threads|
    && var th := s.threads[step.thread];
       match step
       case Begin(_, call) => th.prog.Done? && Allowed(s, th.held, call)
       case Run(_) =>
         && !th.prog.Done?
         && (th.prog.Acquire? ==> !Held(s, th.prog.lock))
         && (th.prog.LoadRq? || th.prog.CheckRq? ==> th.prog.task < |s.cpuOf|)
       case SetTaskCpu(_, p, _) =>
         th.prog.Done? && p < |s.cpuOf| && (Pi(p) in th.held || Rq(s.cpuOf[p]) in th.held)
  }

  /** `owned` lapses when either of its two locks is dropped. */
  function Forget(owned: Option<(nat, nat)>, l: Lock): Option<(nat, nat)>
  {
    if owned.Some? && (l == Pi(owned.value.0) || l == Rq(owned.value.1)) then None else owned
  }

  /** One lock operation of a thread; `free` says whether the lock it tries is free. */
  function RunOne(th: Thread, free: bool, cpuOf: seq<nat>): Thread
    requires !th.prog.Done?
    requires th.prog.LoadRq? || th.prog.CheckRq? ==> th.prog.task < |cpuOf|
  {
    match th.prog
    case Acquire(l, k) => th.(held := th.held + {l}, prog := k)
    case Release(l, k) => th.(held := th.held - {l}, prog := k, owned := Forget(th.owned, l))
    case TryAcquire(l, yes, no) =>
      if free then th.(held := th.held + {l}, prog := yes) else th.(prog := no)
    case LoadRq(p, dropPi) => th.(prog := Acquire(Rq(cpuOf[p]), CheckRq(p, cpuOf[p], dropPi)))
    case CheckRq(p, c, dropPi) =>
      if cpuOf[p] == c then th.(prog := Done, goal := th.goal + {Rq(c)}, owned := Some((p, c)))
      else if dropPi then
        th.(prog := Release(Rq(c), Release(Pi(p), Acquire(Pi(p), LoadRq(p, true)))))
      else th.(prog := Release(Rq(c), LoadRq(p, false)))
  }

  function Next(s: State, step: Step): State
    requires Enabled(s, step)
  {
    var t := step.thread;
    var th := s.threads[t];
    match step
    case Begin(_, call) =>
      s.(threads := s.threads[t := th.(prog := Body(s, call), goal := Promise(th.held, call))])
    case Run(_) =>
      var free := th.prog.TryAcquire? && !Held(s, th.prog.lock);
      s.(threads := s.threads[t := RunOne(th, free, s.cpuOf)])
    case SetTaskCpu(_, p, c) =>
      var owned := if th.owned.Some? && th.owned.value.0 == p then None else th.owned;
      s.(threads := s.threads[t := th.(owned := owned)], cpuOf := s.cpuOf[p := c])
  }

  /** A run; a step that is not enabled does not happen. */
  function Execute(s: State, steps: seq<Step>): State
    decreases |steps|
  {
    if steps == [] then s
    else Execute(if Enabled(s, steps[0]) then Next(s, steps[0]) else s, steps[1..])
  }

  // ---- The discipline ----

  /** Everything held ranks strictly below `l`. */
  predicate Below(held: set<Lock>, l: Lock)
  {
    forall k :: k in held ==> Rank(k) < Rank(l)
  }

  /** Every blocking acquire of `prog` goes upward, every release is of a lock held, and the end is `goal`. */
  predicate Upward(prog: Prog, held: set<Lock>, goal: set<Lock>)
  {
    match prog
    case Done => held == goal
    case Acquire(l, k) => Below(held, l) && Upward(k, held + {l}, goal)
    case Release(l, k) => l in held && Upward(k, held - {l}, goal)
    case TryAcquire(l, yes, no) => l !in held && Upward(yes, held + {l}, goal) && Upward(no, held, goal)
    case LoadRq(p, dropPi) => held == goal && Pi(p) in held && NoRq(held) && (dropPi ==> held == {Pi(p)})
    case CheckRq(p, c, dropPi) =>
      && held == goal + {Rq(c)} && Pi(p) in goal && NoRq(goal)
      && (dropPi ==> goal == {Pi(p)})
  }

  /** Every routine, called as its source demands, acquires upward and ends with the locks it promises. */
  lemma BodyUpward(s: State, held: set<Lock>, call: Call)
    requires Allowed(s, held, call)
    ensures call.TryToWakeUpLocal? ==> call.task < |s.cpuOf|
    ensures Upward(Body(s, call), held, Promise(held, call))
  {
    match call
    case DoubleRqLock(a, b) =>
      DoubleLockUpward(a, b, held);
    case DoubleLockBalance(a, b) =>
      if s.preempt {
        DoubleLockUpward(a, b, held - {Rq(a)});
        assert held - {Rq(a)} + {Rq(a), Rq(b)} == held + {Rq(b)};
      } else {
        var bare, both := held - {Rq(a)}, held + {Rq(b)};
        assert bare + {Rq(b)} + {Rq(a)} == both;
        assert b < a ==> Upward(Acquire(Rq(b), Acquire(Rq(a), Done)), bare, both);
      }
    case DoubleRqUnlock(a, b) =>
      assert held - {Rq(a)} - {Rq(b)} == held - {Rq(a), Rq(b)};
    case TaskRqUnlock(c, p) =>
      assert held - {Rq(c)} - {Pi(p)} == held - {Rq(c), Pi(p)};
    case TryToWakeUpLocal(p, c, _) =>
      assert held + {Pi(p)} - {Pi(p)} == held;
      var bare := held - {Rq(c)};
      assert bare + {Pi(p)} + {Rq(c)} - {Pi(p)} == held;
      assert Upward(Acquire(Rq(c), Release(Pi(p), Done)), bare + {Pi(p)}, held);
      assert Upward(Acquire(Pi(p), Acquire(Rq(c), Release(Pi(p), Done))), bare, held);
    case _ =>
  }

  lemma DoubleLockUpward(a: nat, b: nat, held: set<Lock>)
    requires NoRq(held)
    ensures Upward(DoubleLock(a, b), held, held + {Rq(a), Rq(b)})
  {
    assert held + {Rq(a)} + {Rq(b)} == held + {Rq(a), Rq(b)};
    assert held + {Rq(b)} + {Rq(a)} == held + {Rq(a), Rq(b)};
  }

  // ---- The invariant ----

  predicate ThreadOk(th: Thread, cpuOf: seq<nat>)
  {
    && Upward(th.prog, th.held, th.goal)
    && (th.owned.Some? ==>
          && th.owned.value.0 < |cpuOf|
          && Pi(th.owned.value.0) in th.held
          && Rq(th.owned.value.1) in th.held
          && cpuOf[th.owned.value.0] == th.owned.value.1)
  }

  predicate Exclusive(threads: seq<Thread>)
  {
    forall t: nat, u: nat, l ::
      t < |threads| && u < |threads| && l in threads[t].held && l in threads[u].held ==> t == u
  }

  ghost predicate Inv(s: State)
  {
    && Exclusive(s.threads)
    && forall t: nat :: t < |s.threads| ==> ThreadOk(s.threads[t], s.cpuOf)
  }

  /** One lock operation keeps a thread's discipline. */
  lemma RunOneOk(th: Thread, free: bool, cpuOf: seq<nat>)
    requires ThreadOk(th, cpuOf) && !th.prog.Done?
    requires th.prog.LoadRq? || th.prog.CheckRq? ==> th.prog.task < |cpuOf|
    ensures ThreadOk(RunOne(th, free, cpuOf), cpuOf)
  {
    match th.prog
    case Release(l, k) =>
    case LoadRq(p, dropPi) =>
      var c := cpuOf[p];
      assert th.held + {Rq(c)} - {Rq(c)} == th.held;
    case CheckRq(p, c, dropPi) =>
      if cpuOf[p] != c && dropPi {
        assert th.held - {Rq(c)} - {Pi(p)} == {};
        assert Upward(Acquire(Pi(p), LoadRq(p, true)), {}, th.goal);
      }
    case _ =>
  }

  /** A thread that takes only a free lock keeps mutual exclusion. */
  lemma ExclusiveUpdate(threads: seq<Thread>, t: nat, th: Thread)
    requires t < |threads| && Exclusive(threads)
    requires forall l, u: nat :: u < |threads| && u != t && l in th.held ==> l !in threads[u].held
    ensures Exclusive(threads[t := th])
  {
  }

  lemma NextOk(s: State, step: Step)
    requires Inv(s) && Enabled(s, step)
    ensures Inv(Next(s, step))
    ensures |Next(s, step).threads| == |s.threads|
  {
    var t := step.thread;
    var th := s.threads[t];
    var s' := Next(s, step);
    match step
    case Begin(_, call) =>
      BodyUpward(s, th.held, call);
      ExclusiveUpdate(s.threads, t, s'.threads[t]);
    case Run(_) =>
      var free := th.prog.TryAcquire? && !Held(s, th.prog.lock);
      RunOneOk(th, free, s.cpuOf);
      ExclusiveUpdate(s.threads, t, s'.threads[t]);
    case SetTaskCpu(_, p, c) =>
      ExclusiveUpdate(s.threads, t, s'.threads[t]);
      SetTaskCpuOk(s, t, p, c);
  }

  /** Moving a task under one of its two locks never takes it from under another thread that owns it. */
  lemma SetTaskCpuOk(s: State, t: nat, p: nat, c: nat)
    requires Inv(s) && Enabled(s, SetTaskCpu(t, p, c))
    ensures var s' := Next(s, SetTaskCpu(t, p, c));
            forall u: nat :: u < |s'.threads| ==> ThreadOk(s'.threads[u], s'.cpuOf)
  {
    var s' := Next(s, SetTaskCpu(t, p, c));
    forall u: nat | u < |s'.threads| ensures ThreadOk(s'.threads[u], s'.cpuOf) {
      var th := s.threads[u];
      assert ThreadOk(th, s.cpuOf);
      if u != t && th.owned.Some? {
        assert th.owned.value.0 != p;
      }
    }
  }

  lemma {:induction false} ExecuteOk(s: State, steps: seq<Step>)
    requires Inv(s)
    ensures Inv(Execute(s, steps))
    ensures |Execute(s, steps).threads| == |s.threads|
    decreases |steps|
  {
    if steps != [] {
      if Enabled(s, steps[0]) {
        NextOk(s, steps[0]);
        ExecuteOk(Next(s, steps[0]), steps[1..]);
      } else {
        ExecuteOk(s, steps[1..]);
      }
    }
  }

  // ---- Every step exactly ----

  /** A step changes only its own thread, and only `set_task_cpu` moves a task. A blocking acquire takes its lock, a
      release drops it, and a try takes it exactly if nobody holds it. The task locks read the task's queue, lock it and
      look again; if the task has moved they drop that lock, and the task's own if they took it, and start over. */
  lemma StepExact(s: State, step: Step, e: State)
    requires Enabled(s, step) && e == Next(s, step)
    ensures e.preempt == s.preempt && |e.threads| == |s.threads|
    ensures forall u: nat :: u < |s.threads| && u != step.thread ==> e.threads[u] == s.threads[u]
    ensures step.SetTaskCpu? ==>
      && |e.cpuOf| == |s.cpuOf| && e.cpuOf[step.task] == step.cpu
      && forall q :: 0 <= q < |s.cpuOf| && q != step.task ==> e.cpuOf[q] == s.cpuOf[q]
    ensures !step.SetTaskCpu? ==> e.cpuOf == s.cpuOf
    ensures var was, now := s.threads[step.thread], e.threads[step.thread];
            if step.SetTaskCpu? then now.held == was.held && now.prog == was.prog
            else if step.Begin? then
              now.held == was.held && now.prog == Body(s, step.call) && now.goal == Promise(was.held, step.call)
            else match was.prog
              case Acquire(l, k) => now.held == was.held + {l} && now.prog == k
              case Release(l, k) => now.held == was.held - {l} && now.prog == k
              case TryAcquire(l, yes, no) =>
                if Held(s, l) then now.held == was.held && now.prog == no
                else now.held == was.held + {l} && now.prog == yes
              case LoadRq(p, dropPi) =>
                now.held == was.held && now.prog == Acquire(Rq(s.cpuOf[p]), CheckRq(p, s.cpuOf[p], dropPi))
              case CheckRq(p, c, dropPi) =>
                && now.held == was.held
                && (s.cpuOf[p] == c ==> now.prog.Done? && now.owned == Some((p, c)))
                && (s.cpuOf[p] != c ==>
                      && now.prog.Release? && now.prog.lock == Rq(c)
                      && now.prog.k ==
                           if dropPi then Release(Pi(p), Acquire(Pi(p), LoadRq(p, true))) else LoadRq(p, false))
              case Done => true
    ensures var was, now := s.threads[step.thread], e.threads[step.thread];
            was.owned.Some? && now.owned.None? ==>
              || (step.Run? && was.prog.Release?
                  && was.prog.lock in {Pi(was.owned.value.0), Rq(was.owned.value.1)})
              || (step.SetTaskCpu? && step.task == was.owned.value.0)
  {
  }

  /** Every way through the program settles which queue task p is on. */
  predicate MustOwn(prog: Prog, p: nat)
  {
    match prog
    case Done => false
    case Acquire(_, k) => MustOwn(k, p)
    case Release(_, k) => MustOwn(k, p)
    case TryAcquire(_, yes, no) => MustOwn(yes, p) && MustOwn(no, p)
    case LoadRq(q, _) => q == p
    case CheckRq(q, _, _) => q == p
  }

  /** `task_rq_lock` and `__task_rq_lock` try again until they have the lock of the queue the task is on: while they
      are under way no step, of this thread or another, ends the call otherwise. */
  lemma TaskLockEnds(s: State, step: Step, t: nat, p: nat)
    requires Inv(s) && Enabled(s, step) && t < |s.threads| && MustOwn(s.threads[t].prog, p)
    ensures var e := Next(s, step);
            && t < |e.threads|
            && (MustOwn(e.threads[t].prog, p) ||
                (e.threads[t].prog.Done? && p < |e.cpuOf| && e.threads[t].owned == Some((p, e.cpuOf[p]))
                 && {Pi(p), Rq(e.cpuOf[p])} <= e.threads[t].held))
  {
    NextOk(s, step);
    assert ThreadOk(Next(s, step).threads[t], Next(s, step).cpuOf);
    if step.thread == t && step.Run? {
      var th := s.threads[t];
      RunOneMustOwn(th, th.prog.TryAcquire? && !Held(s, th.prog.lock), s.cpuOf, p);
    }
  }

  lemma RunOneMustOwn(th: Thread, free: bool, cpuOf: seq<nat>, p: nat)
    requires MustOwn(th.prog, p) && (th.prog.LoadRq? || th.prog.CheckRq? ==> th.prog.task < |cpuOf|)
    ensures var now := RunOne(th, free, cpuOf);
            MustOwn(now.prog, p) || (now.prog.Done? && p < |cpuOf| && now.owned == Some((p, cpuOf[p])))
  {
    assert MustOwn(Acquire(Pi(p), LoadRq(p, true)), p);
    assert MustOwn(Release(Pi(p), Acquire(Pi(p), LoadRq(p, true))), p);
  }

  lemma TaskLockBegins(s: State, call: Call)
    ensures call.TaskRqLock? || call.TaskRqLockPinned? ==> MustOwn(Body(s, call), call.task)
  {
  }

  /** At some point of every way through the program all of `want` is held. */
  predicate Together(prog: Prog, held: set<Lock>, want: set<Lock>)
  {
    want <= held ||
    match prog
    case Done => false
    case Acquire(l, k) => Together(k, held + {l}, want)
    case Release(l, k) => Together(k, held - {l}, want)
    case TryAcquire(l, yes, no) => Together(yes, held + {l}, want) && Together(no, held, want)
    case LoadRq(_, _) => false
    case CheckRq(_, _, _) => false
  }

  /** `try_to_wake_up_local` has both the task's lock and the run queue's to wake the task up under, exactly if the task
      is on this run queue and is not the one running. */
  lemma WakeLocalHoldsBothIff(s: State, held: set<Lock>, p: nat, own: nat, isCurrent: bool)
    requires Allowed(s, held, TryToWakeUpLocal(p, own, isCurrent))
    ensures Together(Body(s, TryToWakeUpLocal(p, own, isCurrent)), held, {Pi(p), Rq(own)})
       <==> s.cpuOf[p] == own && !isCurrent
  {
    if s.cpuOf[p] == own && !isCurrent {
      var slow := Release(Rq(own), Acquire(Pi(p), Acquire(Rq(own), Release(Pi(p), Done))));
      assert Together(slow, held, {Pi(p), Rq(own)}) by {
        var bare := held - {Rq(own)};
        assert Together(Release(Pi(p), Done), bare + {Pi(p)} + {Rq(own)}, {Pi(p), Rq(own)});
        assert Together(Acquire(Rq(own), Release(Pi(p), Done)), bare + {Pi(p)}, {Pi(p), Rq(own)});
      }
    }
  }

  /** The lock is given up on no way through the program. */
  predicate Keeps(prog: Prog, l: Lock)
  {
    match prog
    case Done => true
    case Acquire(_, k) => Keeps(k, l)
    case Release(m, k) => m != l && Keeps(k, l)
    case TryAcquire(_, yes, no) => Keeps(yes, l) && Keeps(no, l)
    case LoadRq(p, dropPi) => l.Pi? && !(dropPi && l == Pi(p))
    case CheckRq(p, _, dropPi) => l.Pi? && !(dropPi && l == Pi(p))
  }

  /** `task_rq_lock` gives the task's own lock up when it has to start over; `__task_rq_lock` keeps it. */
  lemma TaskLockKeepsPiIff(s: State, call: Call)
    requires call.TaskRqLock? || call.TaskRqLockPinned?
    ensures Keeps(Body(s, call), Pi(call.task)) <==> call.TaskRqLockPinned?
  {
  }

  /** `double_lock_balance` never gives its own queue up exactly without CONFIG_PREEMPT and with its own queue first in
      address order; and without CONFIG_PREEMPT it does not where the other lock is free. */
  lemma BalanceKeepsOwnIff(preempt: bool, own: nat, busiest: nat)
    requires own != busiest
    ensures Keeps(LockBalance(preempt, own, busiest), Rq(own)) <==> !preempt && own < busiest
    ensures !preempt ==>
      && LockBalance(preempt, own, busiest).TryAcquire? && LockBalance(preempt, own, busiest).lock == Rq(busiest)
      && Keeps(LockBalance(preempt, own, busiest).yes, Rq(own))
  {
  }

  // ---- Waiting ----

  /** Thread `t` is stuck in an acquire of a lock that `u` holds. */
  predicate WaitsFor(s: State, t: nat, u: nat)
  {
    t < |s.threads| && u < |s.threads| && s.threads[t].prog.Acquire? && s.threads[t].prog.lock in s.threads[u].held
  }

  /** Each thread of the sequence waits for the next one. */
  predicate WaitChain(s: State, ts: seq<nat>)
  {
    forall i: nat :: i + 1 < |ts| ==> WaitsFor(s, ts[i], ts[i + 1])
  }

  predicate Stuck(s: State, t: nat)
  {
    t < |s.threads| && s.threads[t].prog.Acquire? && Held(s, s.threads[t].prog.lock)
  }

  /** Along a chain of waiters the awaited locks only go up. */
  lemma {:induction false} ChainClimbs(s: State, ts: seq<nat>, j: nat)
    requires Inv(s) && WaitChain(s, ts) && j + 1 < |ts|
    requires forall i :: 0 <= i < |ts| ==> ts[i] < |s.threads| && s.threads[ts[i]].prog.Acquire?
    ensures Rank(s.threads[ts[0]].prog.lock) < Rank(s.threads[ts[j + 1]].prog.lock)
  {
    var a, b := s.threads[ts[j]], s.threads[ts[j + 1]];
    assert WaitsFor(s, ts[j], ts[j + 1]);
    assert ThreadOk(b, s.cpuOf);
    assert Rank(a.prog.lock) < Rank(b.prog.lock);
    if j > 0 {
      ChainClimbs(s, ts, j - 1);
    }
  }

  /** No cycle of waiters, of any length. */
  lemma NoCycle(s: State, ts: seq<nat>)
    requires Inv(s) && |ts| > 0
    ensures !(WaitChain(s, ts) && WaitsFor(s, ts[|ts| - 1], ts[0]))
  {
    if WaitChain(s, ts) && WaitsFor(s, ts[|ts| - 1], ts[0]) {
      var n := |ts|;
      forall i | 0 <= i < n ensures ts[i] < |s.threads| && s.threads[ts[i]].prog.Acquire? {
        assert WaitsFor(s, ts[i], if i + 1 < n then ts[i + 1] else ts[0]);
      }
      var first, last := s.threads[ts[0]], s.threads[ts[n - 1]];
      assert ThreadOk(first, s.cpuOf);
      assert Rank(last.prog.lock) < Rank(first.prog.lock);
      if n > 1 {
        ChainClimbs(s, ts, n - 2);
      }
    }
  }

  /** A number above the rank of every lock held anywhere. */
  lemma {:induction false} RankBound(threads: seq<Thread>) returns (b: nat)
    ensures forall t: nat, l :: t < |threads| && l in threads[t].held ==> Rank(l) < b
  {
    if threads == [] {
      b := 0;
    } else {
      var last := |threads| - 1;
      var rest := RankBound(threads[..last]);
      var top := SetBound(threads[last].held);
      b := rest + top;
      forall t: nat, l | t < |threads| && l in threads[t].held ensures Rank(l) < b {
        if t < last {
          assert threads[..last][t] == threads[t];
        }
      }
    }
  }

  lemma {:induction false} SetBound(held: set<Lock>) returns (b: nat)
    ensures forall l :: l in held ==> Rank(l) < b
    decreases |held|
  {
    if held == {} {
      b := 0;
    } else {
      var l :| l in held;
      var rest := SetBound(held - {l});
      b := rest + Rank(l) + 1;
      forall k | k in held ensures Rank(k) < b {
        assert k == l || k in held - {l};
      }
    }
  }

  /** From any stuck thread the waits lead to a thread that holds a lock and is not stuck itself. */
  lemma {:induction false} WaitsEnd(s: State, t: nat, b: nat) returns (ts: seq<nat>)
    requires Inv(s) && Stuck(s, t)
    requires forall u: nat, l :: u < |s.threads| && l in s.threads[u].held ==> Rank(l) < b
    ensures |ts| > 1 && ts[0] == t && WaitChain(s, ts)
    ensures !Stuck(s, ts[|ts| - 1]) && ts[|ts| - 1] < |s.threads|
    decreases b - Rank(s.threads[t].prog.lock)
  {
    var l := s.threads[t].prog.lock;
    var u: nat :| u < |s.threads| && l in s.threads[u].held;
    if Stuck(s, u) {
      assert ThreadOk(s.threads[u], s.cpuOf);
      var rest := WaitsEnd(s, u, b);
      ts := [t] + rest;
      forall i: nat | i + 1 < |ts| ensures WaitsFor(s, ts[i], ts[i + 1]) {
        if i > 0 {
          assert WaitsFor(s, rest[i - 1], rest[i]);
        }
      }
    } else {
      ts := [t, u];
    }
  }

  // ---- Whole runs ----

  /** Before anything happens: no thread holds a lock or is inside a call. */
  predicate Boot(s: State)
  {
    forall t: nat :: t < |s.threads| ==> s.threads[t] == Thread({}, Done, {}, None)
  }

  /** In every state any run reaches, waiters never form a cycle, whatever its length. */
  lemma NoDeadlock(s: State, steps: seq<Step>, ts: seq<nat>)
    requires Boot(s) && |ts| > 0
    ensures var e := Execute(s, steps); !(WaitChain(e, ts) && WaitsFor(e, ts[|ts| - 1], ts[0]))
  {
    ExecuteOk(s, steps);
    NoCycle(Execute(s, steps), ts);
  }

  /** In every state any run reaches, each stuck thread waits, through a chain, for one that can go on. */
  lemma SomeoneCanGo(s: State, steps: seq<Step>, t: nat) returns (ts: seq<nat>)
    requires Boot(s) && Stuck(Execute(s, steps), t)
    ensures |ts| > 1 && ts[0] == t && WaitChain(Execute(s, steps), ts)
    ensures ts[|ts| - 1] < |s.threads| && !Stuck(Execute(s, steps), ts[|ts| - 1])
  {
    ExecuteOk(s, steps);
    var b := RankBound(Execute(s, steps).threads);
    ts := WaitsEnd(Execute(s, steps), t, b);
  }

  /** In every state any run reaches, a thread out of its call holds exactly the locks the call promised,
      and the queue `task_rq_lock` returned is still its task's queue. */
  lemma CallsDeliver(s: State, steps: seq<Step>, t: nat)
    requires Boot(s) && t < |s.threads|
    ensures var e := Execute(s, steps);
            && t < |e.threads|
            && var th := e.threads[t];
               && (th.prog.Done? ==> th.held == th.goal)
               && (th.owned.Some? ==>
                     && th.owned.value.0 < |e.cpuOf|
                     && e.cpuOf[th.owned.value.0] == th.owned.value.1
                     && {Pi(th.owned.value.0), Rq(th.owned.value.1)} <= th.held)
  {
    ExecuteOk(s, steps);
    var e := Execute(s, steps);
    assert ThreadOk(e.threads[t], e.cpuOf);
  }

  /** What `task_rq_lock` returned lapses only by the owner's own doing: no step of another thread ends it. */
  lemma OwnerUndisturbed(s: State, step: Step, t: nat)
    requires Inv(s) && Enabled(s, step)
    requires t < |s.threads| && step.thread != t && s.threads[t].owned.Some?
    ensures var (p, c) := s.threads[t].owned.value;
            && p < |Next(s, step).cpuOf|
            && Next(s, step).cpuOf[p] == c
            && Next(s, step).threads[t] == s.threads[t]
  {
    assert ThreadOk(s.threads[t], s.cpuOf);
  }
}
