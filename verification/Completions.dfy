/**
 Completions: any number of threads post, try to take and wait for tokens, with timeouts and signals. A wait gives
 up its lock only while it sleeps, so each stretch between two sleeps is one step.
 */
module Completions {

  const UINT := 0x1_0000_0000
  const ERESTARTSYS := 512

  /** What a finished call returned, and whether it took a token. */
  datatype Thread =
    | Ready
    | Asleep(timeout: int)
    | Returned(value: int, took: bool)

  /** `done` is a 32-bit count. The rest is history: tokens posted, tokens taken, and how often `done` overflowed. */
  datatype State = State(done: nat, threads: seq<Thread>, posted: nat, taken: nat, overflows: nat)

  /** `timeout` and `left` count jiffies; `signal` says whether a signal the wait honours is pending. */
  datatype Step =
    | Complete
    | CompleteAll
    | TryWait(t: nat)
    | StartWait(t: nat, timeout: int, signal: bool)
    | Resume(t: nat, left: int, signal: bool)
    | Again(t: nat)

  /** What `schedule_timeout` may return. */
  predicate MayReturn(timeout: int, left: int)
  {
    if timeout < 0 then left == 0 else 0 <= left <= timeout
  }

  predicate Enabled(s: State, step: Step)
  {
    match step
    case Complete => true
    case CompleteAll => true
    case TryWait(t) => t < |s.threads| && s.threads[t].Ready?
    case StartWait(t, _, _) => t < |s.threads| && s.threads[t].Ready?
    case Resume(t, left, _) => t < |s.threads| && s.threads[t].Asleep? && MayReturn(s.threads[t].timeout, left)
    case Again(t) => t < |s.threads| && s.threads[t].Returned?
  }

  function Post(s: State, n: nat): State
  {
    s.(done := (s.done + n) % UINT, posted := s.posted + n, overflows := s.overflows + (s.done + n) / UINT)
  }

  function Take(s: State, t: nat, value: int): State
    requires t < |s.threads| && s.done > 0
  {
    s.(done := s.done - 1, taken := s.taken + 1, threads := s.threads[t := Returned(value, true)])
  }

  function Leave(s: State, t: nat, value: int): State
    requires t < |s.threads|
  {
    s.(threads := s.threads[t := Returned(value, false)])
  }

  /** The loop of `do_wait_for_common` from its head, where no token is there. */
  function Head(s: State, t: nat, timeout: int, signal: bool): State
    requires t < |s.threads|
  {
    if signal then Leave(s, t, -ERESTARTSYS) else s.(threads := s.threads[t := Asleep(timeout)])
  }

  function OrOne(timeout: int): int
  {
    if timeout != 0 then timeout else 1
  }

  function Next(s: State, step: Step): State
    requires Enabled(s, step)
  {
    match step
    case Complete => Post(s, 1)
    case CompleteAll => Post(s, (UINT - 1) / 2)
    case TryWait(t) => if s.done == 0 then Leave(s, t, 0) else Take(s, t, 1)
    case StartWait(t, timeout, signal) =>
      if s.done == 0 then Head(s, t, timeout, signal) else Take(s, t, OrOne(timeout))
    case Resume(t, left, signal) =>
      if s.done > 0 then Take(s, t, OrOne(left))
      else if left == 0 then Leave(s, t, 0)
      else Head(s, t, left, signal)
    case Again(t) => s.(threads := s.threads[t := Ready])
  }

  /** Posting exactly: one token, or half of what `done` can count. */
  lemma PostExact(s: State, step: Step, e: State)
    requires Enabled(s, step) && (step.Complete? || step.CompleteAll?) && s.done < UINT && e == Next(s, step)
    ensures var n := if step.Complete? then 1 else 0x7FFF_FFFF;
            && e.posted == s.posted + n && e.taken == s.taken && e.threads == s.threads
            && e.done == if s.done + n < UINT then s.done + n else s.done + n - UINT
  {
  }

  /** What becomes of a thread's call: it takes a token if there is one and returns what is left of its timeout, or one
      if that is nothing; without a token it returns zero if it may not wait any longer, is interrupted by a pending
      signal if it may, and sleeps on with what is left otherwise. */
  function Outcome(s: State, left: int, signal: bool): Thread
  {
    if s.done > 0 then Returned(if left == 0 then 1 else left, true)
    else if signal then Returned(-512, false)
    else Asleep(left)
  }

  /** Waiting exactly, call by call. */
  lemma WaitExact(s: State, step: Step, e: State)
    requires Enabled(s, step) && !step.Complete? && !step.CompleteAll? && e == Next(s, step)
    ensures |e.threads| == |s.threads| && e.posted == s.posted
    ensures forall u :: 0 <= u < |s.threads| && u != step.t ==> e.threads[u] == s.threads[u]
    ensures var took := s.done > 0 && !step.Again?;
            e.done == s.done - (if took then 1 else 0) && e.taken == s.taken + (if took then 1 else 0)
    ensures e.threads[step.t] ==
      match step
      case TryWait(_) => if s.done > 0 then Returned(1, true) else Returned(0, false)
      case StartWait(_, timeout, signal) => Outcome(s, timeout, signal)
      case Resume(_, left, signal) =>
        if s.done == 0 && left == 0 then Returned(0, false) else Outcome(s, left, signal)
      case Again(_) => Ready
  {
  }

  function Execute(s: State, steps: seq<Step>): State
    decreases |steps|
  {
    if steps == [] then s
    else Execute(if Enabled(s, steps[0]) then Next(s, steps[0]) else s, steps[1..])
  }

  /** What a finished call says about the token; `exact` when no timeout is beyond LONG_MAX. */
  predicate ThreadOk(th: Thread, exact: bool)
  {
    th.Returned? ==>
      && (th.value > 0 ==> th.took)
      && (th.took ==> th.value != 0)
      && (exact ==> (th.took <==> th.value > 0))
  }

  predicate Inv(s: State, exact: bool)
  {
    && s.done < UINT
    && s.posted == s.taken + s.done + s.overflows * UINT
    && forall t :: 0 <= t < |s.threads| ==> ThreadOk(s.threads[t], exact)
  }

  /** The one call that takes a token and yet returns a negative value: a wait that finds a token at once and was
      given a timeout beyond LONG_MAX. */
  predicate Odd(s: State, step: Step)
  {
    step.StartWait? && step.timeout < 0 && s.done > 0
  }

  predicate Overlong(step: Step)
  {
    step.StartWait? && step.timeout < 0
  }

  /** A returning call's value is positive exactly if it took a token: so for every step but the odd one. */
  lemma PositiveIffTook(s: State, step: Step, t: nat)
    requires Enabled(s, step) && t < |s.threads|
    requires !s.threads[t].Returned? && Next(s, step).threads[t].Returned?
    requires s.threads[t].Asleep? || step.StartWait? || step.TryWait?
    ensures var th := Next(s, step).threads[t];
            (th.took <==> th.value > 0) <==> !(Odd(s, step) && step.t == t)
  {
  }

  lemma NextOk(s: State, step: Step, exact: bool)
    requires Inv(s, exact) && Enabled(s, step) && (exact ==> !Odd(s, step))
    ensures Inv(Next(s, step), exact)
  {
    var e := Next(s, step);
    match step
    case Complete => PostOk(s, 1, exact);
    case CompleteAll => PostOk(s, (UINT - 1) / 2, exact);
    case _ =>
      forall t | 0 <= t < |e.threads| ensures ThreadOk(e.threads[t], exact) {
        assert ThreadOk(s.threads[t], exact);
      }
  }

  lemma PostOk(s: State, n: nat, exact: bool)
    requires Inv(s, exact)
    ensures Inv(Post(s, n), exact)
  {
    var m := s.done + n;
    assert m == m / UINT * UINT + m % UINT;
    assert (s.overflows + m / UINT) * UINT == s.overflows * UINT + m / UINT * UINT;
  }

  lemma {:induction false} ExecuteOk(s: State, steps: seq<Step>, exact: bool)
    requires Inv(s, exact) && (exact ==> forall i :: 0 <= i < |steps| ==> !Overlong(steps[i]))
    ensures Inv(Execute(s, steps), exact)
    decreases |steps|
  {
    hide Inv, Enabled, Next;
    if steps != [] {
      assert exact ==> !Overlong(steps[0]);
      if Enabled(s, steps[0]) {
        NextOk(s, steps[0], exact);
        ExecuteOk(Next(s, steps[0]), steps[1..], exact);
      } else {
        ExecuteOk(s, steps[1..], exact);
      }
    }
  }

  /** Over every interleaving, tokens posted are tokens taken plus tokens left, up to overflow of `done`; a call that
      returned a positive value took one and a call that returned zero took none; and where no timeout is beyond
      LONG_MAX, exactly the calls that returned a positive value took one. */
  lemma EveryInterleaving(threads: seq<Thread>, steps: seq<Step>)
    requires forall t :: 0 <= t < |threads| ==> threads[t].Ready?
    ensures var e := Execute(State(0, threads, 0, 0, 0), steps);
            && e.posted == e.taken + e.done + e.overflows * UINT
            && forall t :: 0 <= t < |e.threads| && e.threads[t].Returned? ==>
                 && (e.threads[t].value > 0 ==> e.threads[t].took)
                 && (e.threads[t].value == 0 ==> !e.threads[t].took)
                 && ((forall i :: 0 <= i < |steps| ==> !Overlong(steps[i])) ==>
                       (e.threads[t].took <==> e.threads[t].value > 0))
  {
    var s := State(0, threads, 0, 0, 0);
    var exact := forall i :: 0 <= i < |steps| ==> !Overlong(steps[i]);
    ExecuteOk(s, steps, exact);
    var e := Execute(s, steps);
    forall t | 0 <= t < |e.threads| ensures ThreadOk(e.threads[t], exact) {
    }
  }

  /** A sleeping wait whose token has come returns positive with it as soon as it runs, signal or not. */
  lemma NoTokenLost(s: State, t: nat, left: int, signal: bool)
    requires Enabled(s, Resume(t, left, signal))
    ensures var th := Next(s, Resume(t, left, signal)).threads[t];
            && (s.done > 0 <==> th.Returned? && th.took)
            && (s.done > 0 ==> th.value > 0)
            && (s.done == 0 ==> Next(s, Resume(t, left, signal)).done == 0)
  {
  }

  /** One post, and then a wait given a timeout of -5: it takes the token and returns -5. */
  lemma TakesAndReturnsNegative()
    ensures Execute(State(0, [Ready], 0, 0, 0), [Complete, StartWait(0, -5, false)])
         == State(0, [Returned(-5, true)], 1, 1, 0)
  {
    var steps := [Complete, StartWait(0, -5, false)];
    var s := State(0, [Ready], 0, 0, 0);
    var a := State(1, [Ready], 1, 0, 0);
    assert Next(s, steps[0]) == a;
    assert Next(a, steps[1]) == State(0, [Returned(-5, true)], 1, 1, 0);
    assert steps[1..] == [StartWait(0, -5, false)] && steps[1..][1..] == [];
    assert Execute(s, steps) == Execute(a, steps[1..]);
  }
}
