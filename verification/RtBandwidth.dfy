/**
 RT runtime budgets of one task group over the CPUs of a root domain: borrowing between CPUs,
 taking everything back when a CPU goes down, and handing out a fresh share when it comes up.
 */
module RtBandwidth {
  import opened Basics

  /** `rt_runtime`: RUNTIME_INF, which also marks a disabled queue, or nanoseconds. */
  datatype Budget = Inf | Fin(ns: nat)

  datatype BwRq = BwRq(runtime: Budget, time: nat, throttled: bool)

  /** What one lender and the borrower have after the borrower asked; and whether the borrower is satisfied. */
  datatype Loan = Loan(lender: BwRq, mine: nat, more: bool, full: bool)

  /** The body of the loop of `do_balance_runtime`. */
  function Borrow(lender: BwRq, mine: nat, weight: nat, period: nat): Loan
    requires weight > 0
  {
    if lender.runtime.Inf? || lender.runtime.ns <= lender.time then Loan(lender, mine, false, false)
    else
      var spare := Share(lender.runtime.ns - lender.time, weight);
      var diff := if mine + spare > period then period - mine else spare;
      Loan(lender.(runtime := Fin(lender.runtime.ns - diff)), mine + diff, true, mine + diff == period)
  }

  /** `div_u64(diff, weight)`. */
  function Share(diff: nat, weight: nat): (s: nat)
    requires weight > 0
    ensures s <= diff
  {
    ShareBound(diff, weight, diff / weight);
    diff / weight
  }

  lemma ShareBound(diff: nat, weight: nat, q: nat)
    requires weight > 0 && q == diff / weight
    ensures q <= diff
  {
    assert Product(q, weight) <= diff;
    ProductLaws(1, weight, q);
    ProductSwap(q, weight);
    hide Product;
  }

  lemma ProductSwap(a: nat, b: nat)
    ensures Product(a, b) == Product(b, a) && Product(1, a) == a
  {
  }

  /** `do_balance_runtime` from CPU i on, for the borrower `me`. */
  function BalanceFrom(rqs: seq<BwRq>, me: nat, i: nat, period: nat, more: bool): (seq<BwRq>, bool)
    requires me < |rqs| && i <= |rqs| && rqs[me].runtime.Fin?
    decreases |rqs| - i
  {
    if i == |rqs| then (rqs, more)
    else if i == me then BalanceFrom(rqs, me, i + 1, period, more)
    else
      var loan := Borrow(rqs[i], rqs[me].runtime.ns, |rqs|, period);
      var next := Lent(rqs, me, i, loan);
      if loan.full then (next, true) else BalanceFrom(next, me, i + 1, period, more || loan.more)
  }

  function Lent(rqs: seq<BwRq>, me: nat, i: nat, loan: Loan): seq<BwRq>
    requires me < |rqs| && i < |rqs|
  {
    rqs[i := loan.lender][me := rqs[me].(runtime := Fin(loan.mine))]
  }

  /** One step of the greedy reclaim of `__disable_runtime`. */
  function Reclaim(rq: BwRq, want: int): (r: (BwRq, int))
    requires rq.runtime.Fin?
    ensures r.0.runtime.Fin? && r.0.time == rq.time && r.0.throttled == rq.throttled
    ensures rq.runtime.ns - r.0.runtime.ns == want - r.1
  {
    var have := rq.runtime.ns;
    var diff := if want > 0 then (if have <= want then have else want) else want;
    (rq.(runtime := Fin(have - diff)), want - diff)
  }

  function ReclaimFrom(rqs: seq<BwRq>, me: nat, i: nat, want: int): (seq<BwRq>, int)
    requires me < |rqs| && i <= |rqs|
    decreases |rqs| - i
  {
    if i == |rqs| then (rqs, want)
    else if i == me || rqs[i].runtime.Inf? then ReclaimFrom(rqs, me, i + 1, want)
    else
      var (rq, left) := Reclaim(rqs[i], want);
      if left == 0 then (rqs[i := rq], 0) else ReclaimFrom(rqs[i := rq], me, i + 1, left)
  }

  // ----- the books

  function Worth(b: Budget): nat
  {
    if b.Fin? then b.ns else 0
  }

  function SumFin(rqs: seq<BwRq>, n: nat): nat
    requires n <= |rqs|
  {
    if n == 0 then 0 else SumFin(rqs, n - 1) + Worth(rqs[n - 1].runtime)
  }

  function CountFin(rqs: seq<BwRq>, n: nat): nat
    requires n <= |rqs|
  {
    if n == 0 then 0 else CountFin(rqs, n - 1) + if rqs[n - 1].runtime.Fin? then 1 else 0
  }

  /** The finite budgets together are exactly one share each. */
  ghost predicate Balanced(rqs: seq<BwRq>, share: Budget)
  {
    match share
    case Inf => forall i :: 0 <= i < |rqs| ==> rqs[i].runtime.Inf?
    case Fin(ns) => SumFin(rqs, |rqs|) == Product(CountFin(rqs, |rqs|), ns)
  }

  lemma {:induction false} BooksUpdate(rqs: seq<BwRq>, i: nat, rq: BwRq, n: nat)
    requires i < |rqs| && n <= |rqs|
    ensures SumFin(rqs[i := rq], n)
      == SumFin(rqs, n) + if i < n then Worth(rq.runtime) - Worth(rqs[i].runtime) else 0
    ensures CountFin(rqs[i := rq], n)
      == CountFin(rqs, n)
       + if i < n then (if rq.runtime.Fin? then 1 else 0) - (if rqs[i].runtime.Fin? then 1 else 0) else 0
  {
    if n > 0 {
      BooksUpdate(rqs, i, rq, n - 1);
    }
  }

  lemma {:induction false} OneWithin(rqs: seq<BwRq>, i: nat, n: nat)
    requires i < n <= |rqs|
    ensures Worth(rqs[i].runtime) <= SumFin(rqs, n)
    ensures CountFin(rqs, n) <= n && (rqs[i].runtime.Fin? ==> CountFin(rqs, n) >= 1)
  {
    if n - 1 > i {
      OneWithin(rqs, i, n - 1);
    } else {
      CountAtMost(rqs, n);
    }
  }

  lemma {:induction false} CountAtMost(rqs: seq<BwRq>, n: nat)
    requires n <= |rqs|
    ensures CountFin(rqs, n) <= n && (CountFin(rqs, n) == 0 ==> SumFin(rqs, n) == 0)
  {
    if n > 0 {
      CountAtMost(rqs, n - 1);
    }
  }

  // ----- borrowing

  /** A loan only moves runtime; the lender keeps at least what it has used, and a borrower within its period
      gets one CPU's part of what the lender has to spare, or as much of it as its period has room for. */
  lemma BorrowOk(lender: BwRq, mine: nat, weight: nat, period: nat, loan: Loan)
    requires weight > 0 && loan == Borrow(lender, mine, weight, period)
    ensures loan.lender.runtime.Inf? == lender.runtime.Inf?
    ensures loan.lender.time == lender.time && loan.lender.throttled == lender.throttled
    ensures Worth(loan.lender.runtime) + loan.mine == Worth(lender.runtime) + mine
    ensures lender.runtime.Fin? ==>
      loan.lender.runtime.ns >= if lender.runtime.ns <= lender.time then lender.runtime.ns else lender.time
    ensures mine <= period ==> mine <= loan.mine <= period
    ensures loan.more <==> lender.runtime.Fin? && lender.runtime.ns > lender.time
    ensures loan.more && mine <= period ==>
      var part := (lender.runtime.ns - lender.time) / weight;
      loan.mine == if mine + part <= period then mine + part else period
  {
    if lender.runtime.Fin? && lender.runtime.ns > lender.time {
      var spare := lender.runtime.ns - lender.time;
      ShareIs(spare, weight);
    }
    hide Share;
  }

  lemma ShareIs(diff: nat, weight: nat)
    requires weight > 0
    ensures Share(diff, weight) == diff / weight
  {
  }

  /** What holds between the queues before and after any amount of borrowing by `me`. */
  ghost predicate Borrowed(before: seq<BwRq>, after: seq<BwRq>, me: nat, period: nat)
  {
    && |after| == |before| && me < |before| && before[me].runtime.Fin?
    && (forall i :: 0 <= i < |before| ==>
        after[i].time == before[i].time && after[i].throttled == before[i].throttled
        && after[i].runtime.Fin? == before[i].runtime.Fin?)
    && SumFin(after, |after|) == SumFin(before, |before|)
    && CountFin(after, |after|) == CountFin(before, |before|)
    && (forall i :: 0 <= i < |before| && i != me && before[i].runtime.Fin? ==>
        after[i].runtime.ns >= if before[i].runtime.ns <= before[i].time then before[i].runtime.ns else before[i].time)
    && (before[me].runtime.ns <= period ==> before[me].runtime.ns <= after[me].runtime.ns <= period)
  }

  lemma LentOk(rqs: seq<BwRq>, me: nat, i: nat, period: nat)
    requires me < |rqs| && i < |rqs| && i != me && rqs[me].runtime.Fin?
    ensures Borrowed(rqs, Lent(rqs, me, i, Borrow(rqs[i], rqs[me].runtime.ns, |rqs|, period)), me, period)
  {
    hide Borrow, SumFin, CountFin;
    var loan := Borrow(rqs[i], rqs[me].runtime.ns, |rqs|, period);
    BorrowOk(rqs[i], rqs[me].runtime.ns, |rqs|, period, loan);
    BooksUpdate(rqs, i, loan.lender, |rqs|);
    BooksUpdate(rqs[i := loan.lender], me, rqs[me].(runtime := Fin(loan.mine)), |rqs|);
  }

  lemma BorrowedTrans(a: seq<BwRq>, b: seq<BwRq>, c: seq<BwRq>, me: nat, period: nat)
    requires Borrowed(a, b, me, period) && Borrowed(b, c, me, period)
    ensures Borrowed(a, c, me, period)
  {
    hide SumFin, CountFin;
  }

  /** Whatever `do_balance_runtime` does, runtime is conserved, no lender falls below its own `rt_time`, and a
      borrower that starts within its period ends within it. */
  lemma {:induction false} BalanceOk(rqs: seq<BwRq>, me: nat, i: nat, period: nat, more: bool)
    requires me < |rqs| && i <= |rqs| && rqs[me].runtime.Fin?
    ensures Borrowed(rqs, BalanceFrom(rqs, me, i, period, more).0, me, period)
    decreases |rqs| - i
  {
    hide Borrow, SumFin, CountFin;
    if i < |rqs| {
      if i == me {
        BalanceOk(rqs, me, i + 1, period, more);
      } else {
        hide Borrowed;
        var loan := Borrow(rqs[i], rqs[me].runtime.ns, |rqs|, period);
        var next := Lent(rqs, me, i, loan);
        LentOk(rqs, me, i, period);
        if !loan.full {
          BalanceOk(next, me, i + 1, period, more || loan.more);
          BorrowedTrans(rqs, next, BalanceFrom(next, me, i + 1, period, more || loan.more).0, me, period);
        }
      }
    }
  }

  // ----- who lends what

  predicate Lends(q: BwRq)
  {
    q.runtime.Fin? && q.runtime.ns > q.time
  }

  /** One CPU's part of what a queue has to spare. */
  function Part(q: BwRq, weight: nat): nat
    requires weight > 0
  {
    if Lends(q) then (q.runtime.ns - q.time) / weight else 0
  }

  /** The parts of the queues from i up to k, those of the borrower aside. */
  function Parts(rqs: seq<BwRq>, me: nat, i: nat, k: nat): nat
    requires i <= k <= |rqs|
    decreases k - i
  {
    if i == k then 0 else (if i == me then 0 else Part(rqs[i], |rqs|)) + Parts(rqs, me, i + 1, k)
  }

  function Least(a: int, b: int): int
  {
    if a <= b then a else b
  }

  /** What queue k gives to a borrower with room for `room`, when those from i up to k have given before it. */
  function Gives(rqs: seq<BwRq>, me: nat, i: nat, k: nat, room: int): int
    requires i <= k < |rqs|
  {
    var left := room - Parts(rqs, me, i, k);
    if left <= 0 then 0 else Least(Part(rqs[k], |rqs|), left)
  }

  /** The queues from i on give in order, each its part until the room is used up; nothing else of them changes. */
  ghost predicate OthersGive(before: seq<BwRq>, after: seq<BwRq>, me: nat, i: nat, room: int)
    requires i <= |before|
  {
    && |after| == |before|
    && (forall k :: 0 <= k < i && k != me ==> after[k] == before[k])
    && forall k :: i <= k < |before| && k != me ==>
         && after[k] == before[k].(runtime := after[k].runtime)
         && (before[k].runtime.Inf? ==> after[k].runtime.Inf?)
         && (before[k].runtime.Fin? ==>
               after[k].runtime.Fin? && after[k].runtime.ns == before[k].runtime.ns - Gives(before, me, i, k, room))
  }

  /** The borrower gets all the parts, or as much as its period has room for. */
  ghost predicate LentInOrder(before: seq<BwRq>, after: seq<BwRq>, me: nat, i: nat, period: nat)
    requires me < |before| && i <= |before| && before[me].runtime.Fin?
  {
    var mine := before[me].runtime.ns;
    && OthersGive(before, after, me, i, period - mine)
    && after[me] == before[me].(runtime := after[me].runtime) && after[me].runtime.Fin?
    && after[me].runtime.ns == Least(period, mine + Parts(before, me, i, |before|))
  }

  ghost predicate SomeoneLends(rqs: seq<BwRq>, me: nat, i: nat)
  {
    exists k :: i <= k < |rqs| && k != me && Lends(rqs[k])
  }

  lemma {:induction false} PartsFrame(a: seq<BwRq>, b: seq<BwRq>, me: nat, i: nat, k: nat)
    requires |a| == |b| && i <= k <= |a| && forall j :: i <= j < k && j != me ==> a[j] == b[j]
    ensures Parts(a, me, i, k) == Parts(b, me, i, k)
    decreases k - i
  {
    if i < k {
      PartsFrame(a, b, me, i + 1, k);
    }
  }

  /** One turn of the loop. */
  lemma LentOne(rqs: seq<BwRq>, me: nat, i: nat, period: nat, loan: Loan)
    requires me < |rqs| && i < |rqs| && i != me && rqs[me].runtime.Fin? && rqs[me].runtime.ns <= period
    requires loan == Borrow(rqs[i], rqs[me].runtime.ns, |rqs|, period)
    ensures var mine := rqs[me].runtime.ns;
            var given := Least(Part(rqs[i], |rqs|), period - mine);
            && loan.mine == mine + given && (loan.more <==> Lends(rqs[i]))
            && (rqs[i].runtime.Inf? ==> loan.lender == rqs[i])
            && (rqs[i].runtime.Fin? ==>
                  rqs[i].runtime.ns >= given && loan.lender == rqs[i].(runtime := Fin(rqs[i].runtime.ns - given)))
            && (loan.full <==> loan.more && loan.mine == period)
  {
    if Lends(rqs[i]) {
      ShareIs(rqs[i].runtime.ns - rqs[i].time, |rqs|);
    }
    hide Share;
  }

  /** After the first lender, what the others give is what they give to the borrower as it then stands. */
  lemma GivesNext(rqs: seq<BwRq>, next: seq<BwRq>, me: nat, i: nat, k: nat, room: int)
    requires i < k < |rqs| && |next| == |rqs| && i != me && k != me && room >= 0
    requires forall j :: i < j < |rqs| && j != me ==> next[j] == rqs[j]
    ensures Gives(rqs, me, i, k, room)
         == Gives(next, me, i + 1, k, room - Least(Part(rqs[i], |rqs|), room))
  {
    hide Part;
    PartsFrame(rqs, next, me, i + 1, k);
  }

  /** `do_balance_runtime` exactly: what the borrower gets, what every other queue gives, and that `more` is answered
      if and only if some queue had time to spare. */
  lemma {:induction false} BalanceExact(rqs: seq<BwRq>, me: nat, i: nat, period: nat, more: bool)
    requires me < |rqs| && i <= |rqs| && rqs[me].runtime.Fin? && rqs[me].runtime.ns <= period
    ensures LentInOrder(rqs, BalanceFrom(rqs, me, i, period, more).0, me, i, period)
    ensures BalanceFrom(rqs, me, i, period, more).1 <==> more || SomeoneLends(rqs, me, i)
    decreases |rqs| - i
  {
    hide Borrow, Part, Lends, LentInOrder, SomeoneLends;
    if i == |rqs| {
      NothingLeft(rqs, me, period);
    } else if i == me {
      BalanceExact(rqs, me, i + 1, period, more);
      SkipMe(rqs, BalanceFrom(rqs, me, i, period, more).0, me, period);
    } else {
      var loan := Borrow(rqs[i], rqs[me].runtime.ns, |rqs|, period);
      var next := Lent(rqs, me, i, loan);
      LentOne(rqs, me, i, period, loan);
      if loan.full {
        LentAll(rqs, me, i, period, next, next);
      } else {
        BalanceExact(next, me, i + 1, period, more || loan.more);
        LentAll(rqs, me, i, period, next, BalanceFrom(next, me, i + 1, period, more || loan.more).0);
      }
    }
  }

  lemma NothingLeft(rqs: seq<BwRq>, me: nat, period: nat)
    requires me < |rqs| && rqs[me].runtime.Fin? && rqs[me].runtime.ns <= period
    ensures LentInOrder(rqs, rqs, me, |rqs|, period) && !SomeoneLends(rqs, me, |rqs|)
  {
  }

  lemma SkipMe(rqs: seq<BwRq>, after: seq<BwRq>, me: nat, period: nat)
    requires me < |rqs| && rqs[me].runtime.Fin?
    requires LentInOrder(rqs, after, me, me + 1, period)
    ensures LentInOrder(rqs, after, me, me, period)
    ensures SomeoneLends(rqs, me, me) <==> SomeoneLends(rqs, me, me + 1)
  {
    hide Part, Lends;
    var room := period - rqs[me].runtime.ns;
    forall k | me < k < |rqs|
      ensures Gives(rqs, me, me, k, room) == Gives(rqs, me, me + 1, k, room)
    {
      assert Parts(rqs, me, me, k) == Parts(rqs, me, me + 1, k);
    }
  }

  /** The first lender's turn and the rest make the whole. */
  lemma LentAll(rqs: seq<BwRq>, me: nat, i: nat, period: nat, next: seq<BwRq>, after: seq<BwRq>)
    requires me < |rqs| && i < |rqs| && i != me && rqs[me].runtime.Fin? && rqs[me].runtime.ns <= period
    requires |next| == |rqs|
    requires var given := Least(Part(rqs[i], |rqs|), period - rqs[me].runtime.ns);
             && next[me] == rqs[me].(runtime := Fin(rqs[me].runtime.ns + given))
             && (rqs[i].runtime.Inf? ==> next[i] == rqs[i])
             && (rqs[i].runtime.Fin? ==>
                   rqs[i].runtime.ns >= given && next[i] == rqs[i].(runtime := Fin(rqs[i].runtime.ns - given)))
    requires forall k :: 0 <= k < |rqs| && k != i && k != me ==> next[k] == rqs[k]
    requires LentInOrder(next, after, me, i + 1, period) || (after == next && next[me].runtime == Fin(period))
    ensures LentInOrder(rqs, after, me, i, period)
    ensures SomeoneLends(rqs, me, i) <==> Lends(rqs[i]) || SomeoneLends(next, me, i + 1)
  {
    hide Part, Lends, Gives, Parts;
    var room := period - rqs[me].runtime.ns;
    PartsFrame(rqs, next, me, i + 1, |rqs|);
    FirstGives(rqs, me, i, room);
    forall k | i < k < |rqs| && k != me
      ensures Gives(rqs, me, i, k, room) == Gives(next, me, i + 1, k, period - next[me].runtime.ns)
      ensures next[me].runtime == Fin(period) ==> Gives(rqs, me, i, k, room) == 0
    {
      GivesNext(rqs, next, me, i, k, room);
      NoRoom(next, me, i + 1, k);
    }
  }

  lemma FirstGives(rqs: seq<BwRq>, me: nat, i: nat, room: nat)
    requires i < |rqs| && i != me
    ensures Gives(rqs, me, i, i, room) == Least(Part(rqs[i], |rqs|), room)
    ensures Parts(rqs, me, i, |rqs|) == Part(rqs[i], |rqs|) + Parts(rqs, me, i + 1, |rqs|)
  {
    hide Part;
  }

  lemma NoRoom(rqs: seq<BwRq>, me: nat, i: nat, k: nat)
    requires i <= k < |rqs|
    ensures Gives(rqs, me, i, k, 0) == 0
  {
  }

  lemma {:induction false} PartWithin(rqs: seq<BwRq>, me: nat, i: nat, k: nat)
    requires i <= k < |rqs| && k != me
    ensures Parts(rqs, me, i, k) + Part(rqs[k], |rqs|) <= Parts(rqs, me, i, |rqs|)
    decreases k - i
  {
    hide Part;
    if i < k {
      PartWithin(rqs, me, i + 1, k);
    }
  }

  /** A borrower that stays below its period has got the n-th part of the spare time of every queue that had any, and
      no other queue has changed. */
  lemma AllLend(rqs: seq<BwRq>, me: nat, period: nat, after: seq<BwRq>)
    requires me < |rqs| && rqs[me].runtime.Fin? && rqs[me].runtime.ns <= period
    requires after == BalanceFrom(rqs, me, 0, period, false).0
    ensures |after| == |rqs| && after[me].runtime.Fin?
    ensures after[me].runtime.ns < period ==>
      forall k :: 0 <= k < |rqs| && k != me ==>
        if rqs[k].runtime.Fin? && rqs[k].runtime.ns > rqs[k].time
        then after[k].runtime.Fin?
          && rqs[k].runtime.ns - after[k].runtime.ns == (rqs[k].runtime.ns - rqs[k].time) / |rqs|
        else after[k] == rqs[k]
  {
    hide BalanceFrom;
    BalanceExact(rqs, me, 0, period, false);
    if after[me].runtime.ns < period {
      forall k | 0 <= k < |rqs| && k != me
        ensures Gives(rqs, me, 0, k, period - rqs[me].runtime.ns) == Part(rqs[k], |rqs|)
      {
        PartWithin(rqs, me, 0, k);
      }
    }
  }

  // ----- disabling

  /** Reclaiming from CPU i on leaves want == 0 whenever the others hold enough to take from, or at least exist
      to give to. */
  lemma {:induction false} ReclaimOk(rqs: seq<BwRq>, me: nat, i: nat, want: int)
    requires me < |rqs| && i <= |rqs| && rqs[me].runtime.Fin? && want != 0
    ensures var (r, left) := ReclaimFrom(rqs, me, i, want);
      && |r| == |rqs| && r[me] == rqs[me]
      && CountFin(r, |r|) == CountFin(rqs, |rqs|)
      && SumFin(r, |r|) == SumFin(rqs, |rqs|) - (want - left)
      && (want > 0 ==> 0 <= left <= want)
    ensures want > 0 && Others(rqs, me, i) >= want ==> ReclaimFrom(rqs, me, i, want).1 == 0
    ensures want < 0 && OthersCount(rqs, me, i) > 0 ==> ReclaimFrom(rqs, me, i, want).1 == 0
    decreases |rqs| - i
  {
    hide SumFin, CountFin;
    if i < |rqs| {
      if i == me || rqs[i].runtime.Inf? {
        ReclaimOk(rqs, me, i + 1, want);
      } else {
        var (rq, left) := Reclaim(rqs[i], want);
        BooksUpdate(rqs, i, rq, |rqs|);
        var next := rqs[i := rq];
        if left != 0 {
          OthersFrame(rqs, next, me, i + 1);
          ReclaimOk(next, me, i + 1, left);
        }
      }
    }
  }

  /** What the other finite queues from i on hold together, and how many they are. */
  function Others(rqs: seq<BwRq>, me: nat, i: nat): nat
    requires i <= |rqs|
    decreases |rqs| - i
  {
    if i == |rqs| then 0 else Others(rqs, me, i + 1) + if i == me then 0 else Worth(rqs[i].runtime)
  }

  function OthersCount(rqs: seq<BwRq>, me: nat, i: nat): nat
    requires i <= |rqs|
    decreases |rqs| - i
  {
    if i == |rqs| then 0 else OthersCount(rqs, me, i + 1) + if i != me && rqs[i].runtime.Fin? then 1 else 0
  }

  lemma {:induction false} OthersFrame(a: seq<BwRq>, b: seq<BwRq>, me: nat, i: nat)
    requires |a| == |b| && i <= |a| && forall k :: i <= k < |a| ==> a[k] == b[k]
    ensures Others(a, me, i) == Others(b, me, i) && OthersCount(a, me, i) == OthersCount(b, me, i)
    decreases |a| - i
  {
    if i < |a| {
      OthersFrame(a, b, me, i + 1);
    }
  }

  lemma {:induction false} OthersSplit(rqs: seq<BwRq>, me: nat, i: nat)
    requires me < |rqs| && i <= |rqs|
    ensures SumFin(rqs, |rqs|) == SumFin(rqs, i) + Others(rqs, me, i) + if me >= i then Worth(rqs[me].runtime) else 0
    ensures CountFin(rqs, |rqs|) == CountFin(rqs, i) + OthersCount(rqs, me, i)
      + if me >= i && rqs[me].runtime.Fin? then 1 else 0
    decreases |rqs| - i
  {
    if i < |rqs| {
      OthersSplit(rqs, me, i + 1);
    }
  }

  /** `BUG_ON(want)` cannot fire: from balanced books the greedy reclaim always ends with nothing left to want,
      and once the queue is marked disabled the books are balanced again. */
  lemma NothingLeaks(rqs: seq<BwRq>, me: nat, share: nat, want: int)
    requires me < |rqs| && rqs[me].runtime.Fin? && Balanced(rqs, Fin(share))
    requires want == share - rqs[me].runtime.ns && want != 0
    ensures var (r, left) := ReclaimFrom(rqs, me, 0, want);
      && left == 0 && |r| == |rqs| && r[me] == rqs[me]
      && Balanced(r[me := r[me].(runtime := Inf)], Fin(share))
  {
    hide ReclaimFrom, Others, OthersCount, Product;
    OthersSplit(rqs, me, 0);
    ReclaimOk(rqs, me, 0, want);
    var n := OthersCount(rqs, me, 0);
    ProductLaws(n, n + 1, share);
    NoOthers(rqs, me, 0);
    var (r, left) := ReclaimFrom(rqs, me, 0, want);
    BooksUpdate(r, me, r[me].(runtime := Inf), |r|);
  }

  lemma {:induction false} NoOthers(rqs: seq<BwRq>, me: nat, i: nat)
    requires i <= |rqs|
    ensures OthersCount(rqs, me, i) == 0 ==> Others(rqs, me, i) == 0
    decreases |rqs| - i
  {
    if i < |rqs| {
      NoOthers(rqs, me, i + 1);
    }
  }

  // ----- who gives back what

  /** What the other finite queues from i up to k hold together. */
  function HeldBy(rqs: seq<BwRq>, me: nat, i: nat, k: nat): nat
    requires i <= k <= |rqs|
    decreases k - i
  {
    if i == k then 0 else (if i == me then 0 else Worth(rqs[i].runtime)) + HeldBy(rqs, me, i + 1, k)
  }

  /** What queue k gives back when those from i up to k have given before it: all it has while that is wanted. What
      is to be handed out instead goes to the first of them. */
  function GivesBack(rqs: seq<BwRq>, me: nat, i: nat, k: nat, want: int): int
    requires i <= k < |rqs|
  {
    if want > 0 then
      var left := want - HeldBy(rqs, me, i, k);
      if left <= 0 then 0 else Least(Worth(rqs[k].runtime), left)
    else if exists j :: i <= j < k && j != me && rqs[j].runtime.Fin? then 0 else want
  }

  ghost predicate GivenBack(before: seq<BwRq>, after: seq<BwRq>, me: nat, i: nat, want: int)
    requires i <= |before|
  {
    && |after| == |before|
    && (forall k :: 0 <= k < |before| && (k < i || k == me || before[k].runtime.Inf?) ==> after[k] == before[k])
    && forall k :: i <= k < |before| && k != me && before[k].runtime.Fin? ==>
         && after[k] == before[k].(runtime := after[k].runtime) && after[k].runtime.Fin?
         && after[k].runtime.ns == before[k].runtime.ns - GivesBack(before, me, i, k, want)
  }

  lemma {:induction false} HeldFrame(a: seq<BwRq>, b: seq<BwRq>, me: nat, i: nat, k: nat)
    requires |a| == |b| && i <= k <= |a| && forall j :: i <= j < k ==> a[j] == b[j]
    ensures HeldBy(a, me, i, k) == HeldBy(b, me, i, k)
    decreases k - i
  {
    if i < k {
      HeldFrame(a, b, me, i + 1, k);
    }
  }

  /** The greedy reclaim exactly: every other queue in turn gives all it has, until nothing is wanted any more; a
      surplus goes to the first. */
  lemma {:induction false} ReclaimExact(rqs: seq<BwRq>, me: nat, i: nat, want: int)
    requires me < |rqs| && i <= |rqs| && want != 0
    ensures GivenBack(rqs, ReclaimFrom(rqs, me, i, want).0, me, i, want)
    decreases |rqs| - i
  {
    if i < |rqs| {
      if i == me || rqs[i].runtime.Inf? {
        ReclaimExact(rqs, me, i + 1, want);
        PassOver(rqs, me, i, want);
      } else {
        var (rq, left) := Reclaim(rqs[i], want);
        var next := rqs[i := rq];
        if left != 0 {
          ReclaimExact(next, me, i + 1, left);
        }
        GivesBackNext(rqs, next, me, i, want, left);
      }
    }
  }

  lemma PassOver(rqs: seq<BwRq>, me: nat, i: nat, want: int)
    requires i < |rqs| && (i == me || rqs[i].runtime.Inf?)
    ensures forall k :: i < k < |rqs| ==> GivesBack(rqs, me, i, k, want) == GivesBack(rqs, me, i + 1, k, want)
  {
    forall k | i < k < |rqs|
      ensures GivesBack(rqs, me, i, k, want) == GivesBack(rqs, me, i + 1, k, want)
    {
      assert HeldBy(rqs, me, i, k) == HeldBy(rqs, me, i + 1, k);
    }
  }

  lemma GivesBackNext(rqs: seq<BwRq>, next: seq<BwRq>, me: nat, i: nat, want: int, left: int)
    requires i < |rqs| && i != me && rqs[i].runtime.Fin? && |next| == |rqs| && want != 0
    requires forall k :: i < k < |rqs| ==> next[k] == rqs[k]
    requires left == want - GivesBack(rqs, me, i, i, want)
    ensures forall k :: i < k < |rqs| ==>
      GivesBack(rqs, me, i, k, want) == if left == 0 then 0 else GivesBack(next, me, i + 1, k, left)
  {
    forall k | i < k < |rqs|
      ensures GivesBack(rqs, me, i, k, want) == if left == 0 then 0 else GivesBack(next, me, i + 1, k, left)
    {
      HeldFrame(rqs, next, me, i + 1, k);
      assert HeldBy(rqs, me, i, k) == Worth(rqs[i].runtime) + HeldBy(rqs, me, i + 1, k);
    }
  }

  /** `__enable_runtime` keeps the books balanced exactly on a queue that was disabled or already held its share. */
  lemma EnableBalancedIff(rqs: seq<BwRq>, me: nat, share: nat)
    requires me < |rqs| && Balanced(rqs, Fin(share))
    ensures Balanced(rqs[me := BwRq(Fin(share), 0, false)], Fin(share))
      <==> rqs[me].runtime.Inf? || rqs[me].runtime.ns == share
  {
    hide SumFin, CountFin, Product;
    BooksUpdate(rqs, me, BwRq(Fin(share), 0, false), |rqs|);
    ProductLaws(CountFin(rqs, |rqs|), 0, share);
  }

  /** No budget ever exceeds one share per CPU, so the u64 and s64 arithmetic of the source is exact when that fits. */
  lemma BudgetBound(rqs: seq<BwRq>, i: nat, share: nat)
    requires i < |rqs| && Balanced(rqs, Fin(share)) && rqs[i].runtime.Fin?
    ensures rqs[i].runtime.ns <= Product(|rqs|, share)
  {
    hide Product;
    OneWithin(rqs, i, |rqs|);
    CountAtMost(rqs, |rqs|);
    ProductLaws(CountFin(rqs, |rqs|), |rqs|, share);
  }

  // ----- every run

  datatype Step =
    | BorrowFor(me: nat)
    | Charge(me: nat, delta: nat)
    | Timer(me: nat, overrun: nat)
    | Disable(me: nat)
    | Enable(me: nat)
    | SetShare(share: Budget)

  datatype State = State(rqs: seq<BwRq>, share: Budget, period: nat)

  /** Borrowing is for a queue that ran over a finite budget; only a disabled queue is enabled. */
  predicate Enabled(s: State, step: Step)
  {
    match step
    case BorrowFor(me) => me < |s.rqs| && s.rqs[me].runtime.Fin? && s.rqs[me].time > s.rqs[me].runtime.ns
    case Charge(me, _) => me < |s.rqs|
    case Timer(me, _) => me < |s.rqs|
    case Disable(me) => me < |s.rqs|
    case Enable(me) => me < |s.rqs| && s.rqs[me].runtime.Inf?
    case SetShare(_) => true
  }

  /** `balance_runtime`. */
  function BalanceRuntime(rqs: seq<BwRq>, me: nat, period: nat): (r: seq<BwRq>)
    requires me < |rqs|
    ensures |r| == |rqs|
    ensures rqs[me].runtime.Fin? ==> r[me].runtime.Fin? && Borrowed(rqs, r, me, period)
    ensures r[me].time == rqs[me].time && r[me].throttled == rqs[me].throttled
  {
    hide BalanceFrom;
    if rqs[me].runtime.Fin? then
      BorrowedRefl(rqs, me, period);
      BalanceOk(rqs, me, 0, period, false);
      if rqs[me].time > rqs[me].runtime.ns then BalanceFrom(rqs, me, 0, period, false).0 else rqs
    else rqs
  }

  lemma BorrowedRefl(rqs: seq<BwRq>, me: nat, period: nat)
    requires me < |rqs| && rqs[me].runtime.Fin?
    ensures Borrowed(rqs, rqs, me, period)
  {
  }

  /** `sched_rt_runtime_exceeded` on one queue. */
  function Exceeded(rqs: seq<BwRq>, me: nat, share: Budget, period: nat): (r: seq<BwRq>)
    requires me < |rqs|
    ensures |r| == |rqs|
  {
    var q := rqs[me];
    if q.throttled || q.runtime.Inf? || q.runtime.ns >= period then rqs
    else
      var b := BalanceRuntime(rqs, me, period);
      if b[me].time <= b[me].runtime.ns then b
      else if share != Fin(0) then b[me := b[me].(throttled := true)]
      else b[me := b[me].(time := 0)]
  }

  /** The charging loop of `update_curr_rt` for one queue. */
  function Charged(rqs: seq<BwRq>, me: nat, delta: nat, share: Budget, period: nat): (r: seq<BwRq>)
    requires me < |rqs|
    ensures |r| == |rqs|
  {
    if rqs[me].runtime.Inf? then rqs
    else Exceeded(rqs[me := rqs[me].(time := rqs[me].time + delta)], me, share, period)
  }

  /** What `overrun` periods pay back; an unlimited budget pays everything. */
  function Paid(q: BwRq, overrun: nat): (p: nat)
    ensures p <= q.time
  {
    if q.runtime.Fin? && Product(overrun, q.runtime.ns) < q.time then Product(overrun, q.runtime.ns) else q.time
  }

  /** `do_sched_rt_period_timer` on one queue. */
  function TimerOn(rqs: seq<BwRq>, me: nat, overrun: nat, period: nat): (r: seq<BwRq>)
    requires me < |rqs|
    ensures |r| == |rqs|
  {
    if rqs[me].time == 0 then rqs
    else
      var b := if rqs[me].throttled then BalanceRuntime(rqs, me, period) else rqs;
      var time := b[me].time - Paid(b[me], overrun);
      var throttled := b[me].throttled && b[me].runtime.Fin? && time >= b[me].runtime.ns;
      b[me := b[me].(time := time, throttled := throttled)]
  }

  /** `__disable_runtime` on one queue. */
  function Disabled(rqs: seq<BwRq>, me: nat, share: Budget): (seq<BwRq>, int)
    requires me < |rqs|
  {
    if rqs[me].runtime.Inf? || rqs[me].runtime == share || share.Inf? then (rqs[me := rqs[me].(runtime := Inf)], 0)
    else
      var (r, want) := ReclaimFrom(rqs, me, 0, share.ns - rqs[me].runtime.ns);
      if |r| != |rqs| then (r, want) else (r[me := r[me].(runtime := Inf)], want)
  }

  function Next(s: State, step: Step): State
    requires Enabled(s, step)
  {
    match step
    case BorrowFor(me) => s.(rqs := BalanceFrom(s.rqs, me, 0, s.period, false).0)
    case Disable(me) => s.(rqs := Disabled(s.rqs, me, s.share).0)
    case Enable(me) => s.(rqs := s.rqs[me := BwRq(s.share, 0, false)])
    case Charge(me, delta) => s.(rqs := Charged(s.rqs, me, delta, s.share, s.period))
    case Timer(me, overrun) => s.(rqs := TimerOn(s.rqs, me, overrun, s.period))
    case SetShare(share) =>
      s.(rqs := seq(|s.rqs|, i requires 0 <= i < |s.rqs| => s.rqs[i].(runtime := share)), share := share)
  }

  lemma DisabledOk(rqs: seq<BwRq>, me: nat, share: Budget)
    requires me < |rqs| && Balanced(rqs, share)
    ensures Disabled(rqs, me, share).1 == 0 && Balanced(Disabled(rqs, me, share).0, share)
    ensures |Disabled(rqs, me, share).0| == |rqs| && Disabled(rqs, me, share).0[me].runtime.Inf?
  {
    hide ReclaimFrom, Product;
    BooksUpdate(rqs, me, rqs[me].(runtime := Inf), |rqs|);
    if share.Fin? {
      ProductLaws(if CountFin(rqs, |rqs|) > 0 then CountFin(rqs, |rqs|) - 1 else 0, 0, share.ns);
      OneWithin(rqs, me, |rqs|);
      if rqs[me].runtime.Fin? && rqs[me].runtime != share {
        NothingLeaks(rqs, me, share.ns, share.ns - rqs[me].runtime.ns);
      }
    }
  }

  lemma {:induction false} SameShares(rqs: seq<BwRq>, ns: nat, n: nat)
    requires n <= |rqs| && forall i :: 0 <= i < |rqs| ==> rqs[i].runtime == Fin(ns)
    ensures CountFin(rqs, n) == n && SumFin(rqs, n) == Product(n, ns)
  {
    hide Product;
    ProductLaws(if n > 0 then n - 1 else 0, 0, ns);
    if n > 0 {
      SameShares(rqs, ns, n - 1);
    }
  }

  /** Time and throttle flag are no part of the books. */
  lemma TimesOk(rqs: seq<BwRq>, me: nat, q: BwRq, share: Budget)
    requires me < |rqs| && Balanced(rqs, share) && q.runtime == rqs[me].runtime
    ensures Balanced(rqs[me := q], share)
  {
    hide SumFin, CountFin, Product;
    BooksUpdate(rqs, me, q, |rqs|);
  }

  lemma BalanceRuntimeOk(rqs: seq<BwRq>, me: nat, share: Budget, period: nat)
    requires me < |rqs| && Balanced(rqs, share)
    ensures Balanced(BalanceRuntime(rqs, me, period), share)
  {
    hide SumFin, CountFin, Product, BalanceFrom;
  }

  /** A charge keeps the books, and leaves the queue throttled, within its budget, or without a limit. */
  lemma ChargedOk(rqs: seq<BwRq>, me: nat, delta: nat, share: Budget, period: nat)
    requires me < |rqs| && Balanced(rqs, share)
    ensures Balanced(Charged(rqs, me, delta, share, period), share)
    ensures var q := Charged(rqs, me, delta, share, period)[me];
            q.throttled || q.runtime.Inf? || q.time <= q.runtime.ns || q.runtime.ns >= period
  {
    hide Balanced, BalanceRuntime;
    if rqs[me].runtime.Fin? {
      var q := rqs[me].(time := rqs[me].time + delta);
      TimesOk(rqs, me, q, share);
      var a := rqs[me := q];
      BalanceRuntimeOk(a, me, share, period);
      var b := BalanceRuntime(a, me, period);
      TimesOk(b, me, b[me].(throttled := true), share);
      TimesOk(b, me, b[me].(time := 0), share);
    }
  }

  /** The timer keeps the books; it never adds to a debt, and a queue it leaves throttled owes at least its budget. */
  lemma TimerOk(rqs: seq<BwRq>, me: nat, overrun: nat, share: Budget, period: nat)
    requires me < |rqs| && Balanced(rqs, share)
    ensures Balanced(TimerOn(rqs, me, overrun, period), share)
    ensures var q := TimerOn(rqs, me, overrun, period)[me];
            && q.time <= rqs[me].time
            && (q.throttled && rqs[me].time > 0 ==> q.runtime.Fin? && q.time >= q.runtime.ns)
  {
    hide Balanced, BalanceRuntime, Product;
    BalanceRuntimeOk(rqs, me, share, period);
    var b := if rqs[me].throttled then BalanceRuntime(rqs, me, period) else rqs;
    var r := TimerOn(rqs, me, overrun, period);
    if rqs[me].time > 0 {
      TimesOk(b, me, r[me], share);
    }
  }

  lemma NextOk(s: State, step: Step)
    requires Balanced(s.rqs, s.share) && Enabled(s, step)
    ensures Balanced(Next(s, step).rqs, Next(s, step).share) && |Next(s, step).rqs| == |s.rqs|
  {
    hide BalanceFrom, Disabled, Product, SumFin, CountFin, Charged, TimerOn;
    match step
    case BorrowFor(me) => BalanceOk(s.rqs, me, 0, s.period, false);
    case Disable(me) => DisabledOk(s.rqs, me, s.share);
    case Enable(me) =>
      if s.share.Fin? {
        EnableBalancedIff(s.rqs, me, s.share.ns);
      }
    case Charge(me, delta) => ChargedOk(s.rqs, me, delta, s.share, s.period);
    case Timer(me, overrun) => TimerOk(s.rqs, me, overrun, s.share, s.period);
    case SetShare(share) =>
      if share.Fin? {
        SameShares(Next(s, step).rqs, share.ns, |s.rqs|);
      }
  }

  // ----- every step exactly

  /** What a queue that needs more than its budget has once it has borrowed. */
  function Stretched(rqs: seq<BwRq>, me: nat, period: nat): (b: nat)
    requires me < |rqs| && rqs[me].runtime.Fin? && rqs[me].runtime.ns <= period
  {
    Least(period, rqs[me].runtime.ns + Parts(rqs, me, 0, |rqs|))
  }

  /** The borrower's own time is no part of what the others give. */
  lemma GiveFrame(a: seq<BwRq>, b: seq<BwRq>, c: seq<BwRq>, d: seq<BwRq>, me: nat, room: int)
    requires me < |a| == |b| && |c| == |d| == |a|
    requires OthersGive(a, c, me, 0, room)
    requires forall k :: 0 <= k < |a| && k != me ==> a[k] == b[k] && c[k] == d[k]
    ensures OthersGive(b, d, me, 0, room)
  {
    hide Part;
    forall k | 0 <= k < |a| && k != me
      ensures Gives(a, me, 0, k, room) == Gives(b, me, 0, k, room)
    {
      PartsFrame(a, b, me, 0, k);
    }
  }

  lemma BalanceRuntimeExact(rqs: seq<BwRq>, me: nat, period: nat)
    requires me < |rqs| && rqs[me].runtime.Fin? && rqs[me].runtime.ns <= period
    ensures rqs[me].time <= rqs[me].runtime.ns ==> BalanceRuntime(rqs, me, period) == rqs
    ensures rqs[me].time > rqs[me].runtime.ns ==> LentInOrder(rqs, BalanceRuntime(rqs, me, period), me, 0, period)
  {
    hide LentInOrder, Borrowed, BalanceFrom;
    BalanceExact(rqs, me, 0, period, false);
  }

  /** A queue that may still run and has used up its budget borrows; it is throttled if and only if it has used more
      than even that, and then its time is dropped instead where the group has no runtime at all. */
  ghost predicate ChargedTo(rqs: seq<BwRq>, after: seq<BwRq>, me: nat, delta: nat, share: Budget, period: nat)
    requires me < |rqs|
  {
    var q := rqs[me];
    var t := q.time + delta;
    if q.runtime.Inf? then after == rqs
    else if q.throttled || q.runtime.ns >= period || t <= q.runtime.ns then after == rqs[me := q.(time := t)]
    else
      var budget := Stretched(rqs, me, period);
      && OthersGive(rqs, after, me, 0, period - q.runtime.ns)
      && after[me] ==
           if t <= budget then BwRq(Fin(budget), t, false)
           else if share != Fin(0) then BwRq(Fin(budget), t, true)
           else BwRq(Fin(budget), 0, false)
  }

  lemma ChargedExact(rqs: seq<BwRq>, me: nat, delta: nat, share: Budget, period: nat)
    requires me < |rqs|
    ensures ChargedTo(rqs, Charged(rqs, me, delta, share, period), me, delta, share, period)
  {
    hide BalanceRuntime, OthersGive, Parts;
    var q := rqs[me];
    var t := q.time + delta;
    if q.runtime.Fin? && !q.throttled && q.runtime.ns < period {
      var a := rqs[me := q.(time := t)];
      BalanceRuntimeExact(a, me, period);
      if t > q.runtime.ns {
        PartsFrame(rqs, a, me, 0, |rqs|);
        GiveFrame(a, rqs, BalanceRuntime(a, me, period), Charged(rqs, me, delta, share, period), me,
          period - q.runtime.ns);
      }
    }
  }

  /** A throttled queue that owes more than its budget borrows first; `overrun` budgets are paid back; and the throttle
      is lifted if and only if less than one budget is owed then. */
  ghost predicate TimedTo(rqs: seq<BwRq>, after: seq<BwRq>, me: nat, overrun: nat, period: nat)
    requires me < |rqs| && (rqs[me].runtime.Fin? ==> rqs[me].runtime.ns <= period)
  {
    var q := rqs[me];
    if q.time == 0 then after == rqs
    else if q.runtime.Inf? then after == rqs[me := BwRq(Inf, 0, false)]
    else
      var loan := q.throttled && q.time > q.runtime.ns;
      var budget := if loan then Stretched(rqs, me, period) else q.runtime.ns;
      var owed := q.time - Product(overrun, budget);
      var time := if owed <= 0 then 0 else owed;
      && |after| == |rqs|
      && after[me] == BwRq(Fin(budget), time, q.throttled && time >= budget)
      && if loan then OthersGive(rqs, after, me, 0, period - q.runtime.ns) else after == rqs[me := after[me]]
  }

  lemma TimerExact(rqs: seq<BwRq>, me: nat, overrun: nat, period: nat)
    requires me < |rqs| && (rqs[me].runtime.Fin? ==> rqs[me].runtime.ns <= period)
    ensures TimedTo(rqs, TimerOn(rqs, me, overrun, period), me, overrun, period)
  {
    hide BalanceRuntime, OthersGive, Parts, Product;
    var q := rqs[me];
    if q.runtime.Inf? {
      UnlimitedStays(rqs, me, period);
    } else {
      BalanceRuntimeExact(rqs, me, period);
      if q.time > 0 && q.throttled && q.time > q.runtime.ns {
        GiveFrame(rqs, rqs, BalanceRuntime(rqs, me, period), TimerOn(rqs, me, overrun, period), me,
          period - q.runtime.ns);
      }
    }
  }

  /** The queue is marked, and what it lacks of its share or has beyond it is settled with the other queues in turn. */
  ghost predicate DisabledTo(rqs: seq<BwRq>, after: seq<BwRq>, me: nat, share: Budget)
    requires me < |rqs|
  {
    var q := rqs[me];
    && |after| == |rqs| && after[me] == q.(runtime := Inf)
    && if q.runtime.Fin? && share.Fin? && q.runtime != share
       then GivenBack(rqs, after[me := q], me, 0, share.ns - q.runtime.ns)
       else after == rqs[me := after[me]]
  }

  lemma DisabledExact(rqs: seq<BwRq>, me: nat, share: Budget)
    requires me < |rqs|
    ensures DisabledTo(rqs, Disabled(rqs, me, share).0, me, share)
  {
    hide ReclaimFrom;
    var q := rqs[me];
    if q.runtime.Fin? && share.Fin? && q.runtime != share {
      ReclaimExact(rqs, me, 0, share.ns - q.runtime.ns);
      var r := ReclaimFrom(rqs, me, 0, share.ns - q.runtime.ns).0;
      assert Disabled(rqs, me, share).0[me := q] == r;
    }
  }

  /** Every step exactly. A queue that is enabled has its share and a clean slate; a new share reaches every queue,
      disabled or not; the rest is charging, the timer, loans and reclaim as above. */
  lemma NextExact(s: State, step: Step, e: State)
    requires Enabled(s, step) && e == Next(s, step)
    ensures e.period == s.period && e.share == if step.SetShare? then step.share else s.share
    ensures match step
            case BorrowFor(me) => s.rqs[me].runtime.ns <= s.period ==> LentInOrder(s.rqs, e.rqs, me, 0, s.period)
            case Charge(me, delta) => ChargedTo(s.rqs, e.rqs, me, delta, s.share, s.period)
            case Timer(me, overrun) =>
              s.rqs[me].runtime.Inf? || s.rqs[me].runtime.ns <= s.period ==>
                TimedTo(s.rqs, e.rqs, me, overrun, s.period)
            case Disable(me) => DisabledTo(s.rqs, e.rqs, me, s.share)
            case Enable(me) =>
              && |e.rqs| == |s.rqs| && e.rqs[me] == BwRq(s.share, 0, false)
              && forall k :: 0 <= k < |s.rqs| && k != me ==> e.rqs[k] == s.rqs[k]
            case SetShare(share) =>
              && |e.rqs| == |s.rqs|
              && forall k :: 0 <= k < |s.rqs| ==> e.rqs[k] == s.rqs[k].(runtime := share)
  {
    hide BalanceFrom, Charged, TimerOn, Disabled, LentInOrder, ChargedTo, TimedTo, DisabledTo;
    match step
    case BorrowFor(me) =>
      if s.rqs[me].runtime.ns <= s.period {
        BalanceExact(s.rqs, me, 0, s.period, false);
      }
    case Charge(me, delta) => ChargedExact(s.rqs, me, delta, s.share, s.period);
    case Timer(me, overrun) =>
      if s.rqs[me].runtime.Inf? || s.rqs[me].runtime.ns <= s.period {
        TimerExact(s.rqs, me, overrun, s.period);
      }
    case Disable(me) => DisabledExact(s.rqs, me, s.share);
    case _ =>
  }

  function Execute(s: State, steps: seq<Step>): State
    decreases |steps|
  {
    if steps == [] then s else Execute(if Enabled(s, steps[0]) then Next(s, steps[0]) else s, steps[1..])
  }

  /** Over every run of charges, timer passes, loans, disables, enables and bandwidth changes the finite budgets add
      up to one share each, so a disable step at any point of it reclaims everything. */
  lemma {:induction false} EveryRun(s: State, steps: seq<Step>)
    requires Balanced(s.rqs, s.share)
    ensures Balanced(Execute(s, steps).rqs, Execute(s, steps).share)
    ensures |Execute(s, steps).rqs| == |s.rqs|
    ensures forall me :: 0 <= me < |s.rqs| ==> Disabled(Execute(s, steps).rqs, me, Execute(s, steps).share).1 == 0
    decreases |steps|
  {
    hide Balanced, Next, Enabled, Disabled;
    if steps == [] {
      forall me | 0 <= me < |s.rqs|
        ensures Disabled(s.rqs, me, s.share).1 == 0
      {
        DisabledOk(s.rqs, me, s.share);
      }
    } else if Enabled(s, steps[0]) {
      NextOk(s, steps[0]);
      EveryRun(Next(s, steps[0]), steps[1..]);
    } else {
      EveryRun(s, steps[1..]);
    }
  }

  /** Two CPUs with shares of 50 ns of every 100. CPU 0 runs for 60 ns and so borrows 25 from CPU 1. */
  lemma LendingRun(s: State)
    requires s == State([BwRq(Fin(50), 0, false), BwRq(Fin(50), 0, false)], Fin(50), 100)
    ensures Execute(s, [Charge(0, 60)]).rqs == [BwRq(Fin(75), 60, false), BwRq(Fin(25), 0, false)]
    ensures Balanced(s.rqs, s.share)
  {
    SameShares(s.rqs, 50, 2);
    var a := [BwRq(Fin(50), 60, false), BwRq(Fin(50), 0, false)];
    assert s.rqs[0 := BwRq(Fin(50), 60, false)] == a;
    var b := [BwRq(Fin(75), 60, false), BwRq(Fin(25), 0, false)];
    assert Share(50, 2) == 25;
    assert a[1 := BwRq(Fin(25), 0, false)][0 := BwRq(Fin(75), 60, false)] == b;
    assert BalanceFrom(b, 0, 2, 100, true) == (b, true);
    assert BalanceFrom(a, 0, 1, 100, false) == (b, true);
    assert BalanceFrom(a, 0, 0, 100, false) == (b, true);
    assert Charged(s.rqs, 0, 60, Fin(50), 100) == b;
    assert Execute(s, [Charge(0, 60)]) == Execute(Next(s, Charge(0, 60)), []);
  }

  /** Enabling an enabled queue that has lent runtime out does leak. After that run, enabling CPU 1 again and then
      disabling both CPUs trips `BUG_ON(want)`. */
  lemma DoubleEnableLeaks(s: State)
    requires s == State([BwRq(Fin(50), 0, false), BwRq(Fin(50), 0, false)], Fin(50), 100)
    ensures var lent := Execute(s, [Charge(0, 60)]).rqs;
      && Balanced(lent, Fin(50)) && |lent| == 2
      && var again := lent[1 := BwRq(Fin(50), 0, false)];
         var one := Disabled(again, 0, Fin(50));
         !Balanced(again, Fin(50)) && one.1 == 0 && |one.0| == 2 && Disabled(one.0, 1, Fin(50)).1 == -25
  {
    LendingRun(s);
    EveryRun(s, [Charge(0, 60)]);
    var lent := [BwRq(Fin(75), 60, false), BwRq(Fin(25), 0, false)];
    hide Execute;
    EnableBalancedIff(lent, 1, 50);
    var a := [BwRq(Fin(75), 60, false), BwRq(Fin(50), 0, false)];
    assert lent[1 := BwRq(Fin(50), 0, false)] == a;
    var a1 := [BwRq(Fin(75), 60, false), BwRq(Fin(75), 0, false)];
    assert a[1 := BwRq(Fin(75), 0, false)] == a1;
    assert ReclaimFrom(a, 0, 1, -25) == (a1, 0);
    assert ReclaimFrom(a, 0, 0, -25) == (a1, 0);
    var b := [BwRq(Inf, 60, false), BwRq(Fin(75), 0, false)];
    assert a1[0 := BwRq(Inf, 60, false)] == b;
    assert ReclaimFrom(b, 1, 2, -25) == (b, -25);
    assert ReclaimFrom(b, 1, 1, -25) == (b, -25);
    assert ReclaimFrom(b, 1, 0, -25) == (b, -25);
  }

  // ----- the loops, in place

  class GroupBandwidth {
    var rqs: seq<BwRq>
    var share: Budget
    var period: nat

    /** `do_balance_runtime`. */
    method DoBalanceRuntime(me: nat) returns (more: bool)
      requires me < |rqs| && rqs[me].runtime.Fin?
      modifies this`rqs
      ensures (rqs, more) == BalanceFrom(old(rqs), me, 0, period, false)
      ensures Borrowed(old(rqs), rqs, me, period)
      ensures old(rqs)[me].runtime.ns <= period ==>
        LentInOrder(old(rqs), rqs, me, 0, period) && (more <==> SomeoneLends(old(rqs), me, 0))
    {
      BalanceOk(rqs, me, 0, period, false);
      if rqs[me].runtime.ns <= period {
        BalanceExact(rqs, me, 0, period, false);
      }
      hide Borrow, Borrowed, LentInOrder, SomeoneLends;
      more := false;
      var i := 0;
      while i < |rqs|
        invariant 0 <= i <= |rqs| && me < |rqs| && rqs[me].runtime.Fin?
        invariant BalanceFrom(rqs, me, i, period, more) == BalanceFrom(old(rqs), me, 0, period, false)
      {
        if i != me {
          var loan := Borrow(rqs[i], rqs[me].runtime.ns, |rqs|, period);
          rqs := Lent(rqs, me, i, loan);
          if loan.full {
            more := true;
            return;
          }
          more := more || loan.more;
        }
        i := i + 1;
      }
    }

    /** `__disable_runtime` on this group's queue of one CPU; the `BUG_ON` is an assertion. */
    method DisableRuntime(me: nat)
      requires me < |rqs| && Balanced(rqs, share)
      modifies this`rqs
      ensures (rqs, 0) == Disabled(old(rqs), me, share)
      ensures Balanced(rqs, share)
    {
      DisabledOk(rqs, me, share);
      hide Balanced, Reclaim;
      if rqs[me].runtime.Fin? && rqs[me].runtime != share && share.Fin? {
        var want := share.ns - rqs[me].runtime.ns;
        var i := 0;
        while i < |rqs|
          invariant 0 <= i <= |rqs| && |rqs| == |old(rqs)|
          invariant ReclaimFrom(rqs, me, i, want) == ReclaimFrom(old(rqs), me, 0, share.ns - old(rqs)[me].runtime.ns)
        {
          if i != me && rqs[i].runtime.Fin? {
            var (rq, left) := Reclaim(rqs[i], want);
            rqs, want := rqs[i := rq], left;
            if want == 0 {
              break;
            }
          }
          i := i + 1;
        }
        assert want == 0;
      }
      rqs := rqs[me := rqs[me].(runtime := Inf)];
    }

    /** `__enable_runtime`: the books stay balanced exactly if the queue was disabled or held its share. */
    method EnableRuntime(me: nat)
      requires me < |rqs|
      modifies this`rqs
      ensures rqs == old(rqs)[me := BwRq(share, 0, false)]
      ensures old(Balanced(rqs, share)) ==>
        (Balanced(rqs, share) <==> old(rqs)[me].runtime.Inf? || old(rqs)[me].runtime == share)
    {
      if Balanced(rqs, share) && share.Fin? {
        EnableBalancedIff(rqs, me, share.ns);
      }
      rqs := rqs[me := BwRq(share, 0, false)];
    }

    /** `balance_runtime`. */
    method BalanceFor(me: nat)
      requires me < |rqs| && rqs[me].runtime.Fin?
      modifies this`rqs
      ensures rqs == BalanceRuntime(old(rqs), me, period)
    {
      hide BalanceFrom, Borrowed;
      if rqs[me].time > rqs[me].runtime.ns {
        var _ := DoBalanceRuntime(me);
      }
    }

    /** `update_curr_rt` with `sched_rt_runtime_exceeded`, for this group's queue of one CPU. */
    method ChargeRuntime(me: nat, delta: nat)
      requires me < |rqs| && Balanced(rqs, share)
      modifies this`rqs
      ensures rqs == Charged(old(rqs), me, delta, share, period)
      ensures Balanced(rqs, share)
    {
      hide Balanced, BalanceRuntime;
      ChargedOk(rqs, me, delta, share, period);
      if rqs[me].runtime.Inf? {
        return;
      }
      rqs := rqs[me := rqs[me].(time := rqs[me].time + delta)];
      if rqs[me].throttled || rqs[me].runtime.ns >= period {
        return;
      }
      BalanceFor(me);
      if rqs[me].time > rqs[me].runtime.ns {
        if share != Fin(0) {
          rqs := rqs[me := rqs[me].(throttled := true)];
        } else {
          rqs := rqs[me := rqs[me].(time := 0)];
        }
      }
    }

    /** `do_sched_rt_period_timer` for this group's queue of one CPU, borrowing included. */
    method PeriodTimer(me: nat, overrun: nat)
      requires me < |rqs| && Balanced(rqs, share)
      modifies this`rqs
      ensures rqs == TimerOn(old(rqs), me, overrun, period)
      ensures Balanced(rqs, share)
    {
      hide Balanced, BalanceRuntime, Product;
      TimerOk(rqs, me, overrun, share, period);
      if rqs[me].time != 0 {
        if rqs[me].throttled && rqs[me].runtime.Fin? {
          BalanceFor(me);
        } else if rqs[me].throttled {
          UnlimitedStays(rqs, me, period);
        }
        var paid := Paid(rqs[me], overrun);
        var time := rqs[me].time - paid;
        var release := rqs[me].runtime.Inf? || time < rqs[me].runtime.ns;
        rqs := rqs[me := rqs[me].(time := time, throttled := rqs[me].throttled && !release)];
      }
    }
  }

  lemma UnlimitedStays(rqs: seq<BwRq>, me: nat, period: nat)
    requires me < |rqs| && rqs[me].runtime.Inf?
    ensures BalanceRuntime(rqs, me, period) == rqs
  {
  }
}
