/**
 `walk_tg_tree_from`: the goto-based traversal of the task-group tree, against the recursive walk.
 */
module TgWalk {
  import opened Basics

  /** A task group and its list of children. A path gives the child index to follow at each level from the root. */
  datatype Tree<D> = Node(data: D, children: seq<Tree<D>>)

  predicate Valid<D>(t: Tree<D>, p: Path)
  {
    p == [] || (p[0] < |t.children| && Valid(t.children[p[0]], p[1..]))
  }

  function At<D>(t: Tree<D>, p: Path): Tree<D>
    requires Valid(t, p)
  {
    if p == [] then t else At(t.children[p[0]], p[1..])
  }

  /** A visitor call: `(*down)(tg, data)` or `(*up)(tg, data)`. */
  datatype Call = Down(tg: Path) | Up(tg: Path)

  /** The call sequence of the recursive walk of node n, reached by p. */
  function Tour<D>(n: Tree<D>, p: Path): (calls: seq<Call>)
    ensures |calls| > 0
    decreases n, |n.children| + 1
  {
    [Down(p)] + Kids(n, p, 0) + [Up(p)]
  }

  /** The walks of the children of n from the i-th on. */
  function Kids<D>(n: Tree<D>, p: Path, i: nat): seq<Call>
    requires i <= |n.children|
    decreases n, |n.children| - i
  {
    if i == |n.children| then [] else Tour(n.children[i], p + [i]) + Kids(n, p, i + 1)
  }

  /** What a walk yields: the value returned, the visitors' data, and the calls made. */
  datatype Outcome<S> = Outcome(ret: int, data: S, calls: seq<Call>)

  /** Make the calls in order, stopping at the first that returns non-zero. */
  function Perform<S>(visit: (Call, S) -> (int, S), calls: seq<Call>, s: S): Outcome<S>
  {
    if calls == [] then Outcome(0, s, [])
    else
      var (ret, s1) := visit(calls[0], s);
      if ret != 0 then Outcome(ret, s1, [calls[0]])
      else
        var o := Perform(visit, calls[1..], s1);
        o.(calls := [calls[0]] + o.calls)
  }

  function Last(p: Path): nat
    requires p != []
  {
    p[|p| - 1]
  }

  /** What is left to call once the subtree at p is finished. */
  ghost function After<D>(t: Tree<D>, from: Path, p: Path): seq<Call>
    requires Valid(t, p) && from <= p
    decreases |p|
  {
    if p == from then []
    else
      ParentValid(t, p);
      Kids(At(t, Parent(p)), Parent(p), Last(p) + 1) + [Up(Parent(p))] + After(t, from, Parent(p))
  }

  lemma {:induction false} ParentValid<D>(t: Tree<D>, p: Path)
    requires p != [] && Valid(t, p)
    ensures Valid(t, Parent(p)) && Last(p) < |At(t, Parent(p)).children|
    ensures At(t, p) == At(t, Parent(p)).children[Last(p)]
  {
    if |p| > 1 {
      ParentValid(t.children[p[0]], p[1..]);
      assert Parent(p[1..]) == Parent(p)[1..];
    }
  }

  lemma {:induction false} ChildValid<D>(t: Tree<D>, p: Path, i: nat)
    requires Valid(t, p) && i < |At(t, p).children|
    ensures Valid(t, p + [i]) && At(t, p + [i]) == At(t, p).children[i]
  {
    if p != [] {
      ChildValid(t.children[p[0]], p[1..], i);
      assert (p + [i])[1..] == p[1..] + [i];
    } else {
      assert (p + [i])[1..] == [];
    }
  }

  /** What is left to call, at the label `down` or inside the child loop at position `child`. */
  ghost function Rest<D>(t: Tree<D>, from: Path, parent: Path, child: nat, down: bool): seq<Call>
    requires Valid(t, parent) && from <= parent && child <= |At(t, parent).children|
  {
    (if down then Tour(At(t, parent), parent)
     else Kids(At(t, parent), parent, child) + [Up(parent)]) + After(t, from, parent)
  }

  /** The calls made so far and those still to make give the goal. */
  ghost predicate Pending<S(!new)>(goal: Outcome<S>, visit: (Call, S) -> (int, S), made: seq<Call>,
                                   todo: seq<Call>, s: S)
  {
    var o := Perform(visit, todo, s);
    goal == Outcome(o.ret, o.data, made + o.calls)
  }

  lemma PendingStep<S(!new)>(goal: Outcome<S>, visit: (Call, S) -> (int, S), made: seq<Call>,
                       call: Call, rest: seq<Call>, s: S)
    requires Pending(goal, visit, made, [call] + rest, s)
    ensures visit(call, s).0 != 0 || rest == [] ==>
      goal == Outcome(visit(call, s).0, visit(call, s).1, made + [call])
    ensures visit(call, s).0 == 0 ==> Pending(goal, visit, made + [call], rest, visit(call, s).1)
  {
    assert ([call] + rest)[1..] == rest;
    var o := Perform(visit, rest, visit(call, s).1);
    assert made + ([call] + o.calls) == (made + [call]) + o.calls;
  }

  /** Entering a child: what is left is the child's tour and what follows it. */
  lemma RestChild<D>(t: Tree<D>, from: Path, parent: Path, child: nat)
    requires Valid(t, parent) && from <= parent && child < |At(t, parent).children|
    ensures Valid(t, parent + [child]) && from <= parent + [child]
    ensures Rest(t, from, parent, child, false) == Rest(t, from, parent + [child], 0, true)
  {
    var p := parent + [child];
    ChildValid(t, parent, child);
    assert Parent(p) == parent && Last(p) == child;
    hide Tour, Valid, At;
    var n := At(t, parent);
    var tour, kids := Tour(n.children[child], p), Kids(n, parent, child + 1);
    var up, after := [Up(parent)], After(t, from, parent);
    assert After(t, from, p) == kids + up + after;
    FourParts(tour, kids, up, after);
  }

  lemma FourParts<T>(a: seq<T>, b: seq<T>, c: seq<T>, d: seq<T>)
    ensures (a + b) + c + d == a + (b + c + d)
  {
  }

  lemma RestDown<D>(t: Tree<D>, from: Path, parent: Path, child: nat)
    requires Valid(t, parent) && from <= parent && child <= |At(t, parent).children|
    ensures Rest(t, from, parent, child, true) == [Down(parent)] + Rest(t, from, parent, 0, false)
  {
    var kids, after := Kids(At(t, parent), parent, 0), After(t, from, parent);
    assert ([Down(parent)] + kids + [Up(parent)]) + after == [Down(parent)] + (kids + [Up(parent)] + after);
  }

  /** What is left once `up` has been called on parent. */
  ghost function RestAbove<D>(t: Tree<D>, from: Path, parent: Path): seq<Call>
    requires Valid(t, parent) && from <= parent
  {
    if parent == from then []
    else
      ParentValid(t, parent);
      Rest(t, from, Parent(parent), Last(parent) + 1, false)
  }

  lemma RestUp<D>(t: Tree<D>, from: Path, parent: Path)
    requires Valid(t, parent) && from <= parent
    ensures Rest(t, from, parent, |At(t, parent).children|, false) == [Up(parent)] + RestAbove(t, from, parent)
    ensures parent != from ==>
      && Valid(t, Parent(parent)) && from <= Parent(parent)
      && Last(parent) + 1 <= |At(t, Parent(parent)).children|
  {
    if parent != from {
      ParentValid(t, parent);
    }
  }

  /** The goto-based walk makes exactly the calls of the recursive walk, up to and including the first one
      that returns non-zero, and returns what that call returned. */
  method WalkTgTreeFrom<D, S(!new)>(t: Tree<D>, from: Path, visit: (Call, S) -> (int, S), data: S)
    returns (o: Outcome<S>)
    requires Valid(t, from)
    ensures o == Perform(visit, Tour(At(t, from), from), data)
  {
    var s := data;
    var calls: seq<Call> := [];
    var parent: Path, child: nat, down := from, 0, true;
    ghost var goal := Perform(visit, Tour(At(t, from), from), data);
    assert Rest(t, from, parent, child, down) == Tour(At(t, from), from);
    assert calls + goal.calls == goal.calls;
    hide Pending, Perform, Tour, Kids, After, Rest, Valid;
    while true
      invariant Valid(t, parent) && from <= parent && child <= |At(t, parent).children|
      invariant Pending(goal, visit, calls, Rest(t, from, parent, child, down), s)
      decreases |Rest(t, from, parent, child, down)|, !down
    {
      if down {
        RestDown(t, from, parent, child);
        PendingStep(goal, visit, calls, Down(parent), Rest(t, from, parent, 0, false), s);
        var (ret, s1) := visit(Down(parent), s);
        s, calls := s1, calls + [Down(parent)];
        if ret != 0 {
          return Outcome(ret, s, calls);
        }
        child, down := 0, false;
      } else if child < |At(t, parent).children| {
        RestChild(t, from, parent, child);
        parent, child, down := parent + [child], 0, true;
      } else {
        RestUp(t, from, parent);
        PendingStep(goal, visit, calls, Up(parent), RestAbove(t, from, parent), s);
        var (ret, s1) := visit(Up(parent), s);
        s, calls := s1, calls + [Up(parent)];
        if ret != 0 || parent == from {
          return Outcome(ret, s, calls);
        }
        child, parent := Last(parent) + 1, Parent(parent);
      }
    }
  }

  // ----- the recursive walk visits every group of the subtree once on the way down and once on the way up

  ghost predicate Mentions<D>(n: Tree<D>, p: Path, q: Path)
  {
    p <= q && Valid(n, q[|p|..])
  }

  ghost function Count(calls: seq<Call>, c: Call): nat
  {
    multiset(calls)[c]
  }

  lemma {:induction false} TourCounts<D>(n: Tree<D>, p: Path, q: Path)
    ensures Count(Tour(n, p), Down(q)) == if Mentions(n, p, q) then 1 else 0
    ensures Count(Tour(n, p), Up(q)) == if Mentions(n, p, q) then 1 else 0
    decreases n, |n.children| + 1
  {
    hide Kids, InKids, Mentions, Count;
    KidsCounts(n, p, q, 0);
    TourParts(n, p, Down(q));
    TourParts(n, p, Up(q));
    CountOne(Down(p), Down(q));
    CountOne(Up(p), Down(q));
    CountOne(Down(p), Up(q));
    CountOne(Up(p), Up(q));
    MentionsSplit(n, p, q);
  }

  lemma TourParts<D>(n: Tree<D>, p: Path, c: Call)
    ensures Count(Tour(n, p), c) == Count([Down(p)], c) + Count(Kids(n, p, 0), c) + Count([Up(p)], c)
  {
    hide Kids, Count;
    CountAppend([Down(p)], Kids(n, p, 0), c);
    CountAppend([Down(p)] + Kids(n, p, 0), [Up(p)], c);
  }

  lemma CountOne(a: Call, c: Call)
    ensures Count([a], c) == if a == c then 1 else 0
  {
  }

  /** The group itself, or one below a child. */
  lemma MentionsSplit<D>(n: Tree<D>, p: Path, q: Path)
    ensures Mentions(n, p, q) <==> q == p || InKids(n, p, q, 0)
    ensures !InKids(n, p, p, 0)
  {
    if p <= q && |q| > |p| {
      assert q[|p|..][0] == q[|p|];
    }
    if p <= q && |q| == |p| {
      assert q == p;
    }
  }

  /** Among the children from the i-th on, q is visited once if it lies below one of them. */
  lemma {:induction false} KidsCounts<D>(n: Tree<D>, p: Path, q: Path, i: nat)
    requires i <= |n.children|
    ensures Count(Kids(n, p, i), Down(q)) == if InKids(n, p, q, i) then 1 else 0
    ensures Count(Kids(n, p, i), Up(q)) == if InKids(n, p, q, i) then 1 else 0
    decreases n, |n.children| - i
  {
    hide Tour, InKids, Mentions, Count;
    if i == |n.children| {
      NoKids(n, p, q);
      CountNone(Down(q));
      CountNone(Up(q));
    } else {
      TourCounts(n.children[i], p + [i], q);
      KidsCounts(n, p, q, i + 1);
      CountAppend(Tour(n.children[i], p + [i]), Kids(n, p, i + 1), Down(q));
      CountAppend(Tour(n.children[i], p + [i]), Kids(n, p, i + 1), Up(q));
      InKidsStep(n, p, q, i);
    }
  }

  lemma CountNone(c: Call)
    ensures Count([], c) == 0
  {
  }

  lemma CountAppend(a: seq<Call>, b: seq<Call>, c: Call)
    ensures Count(a + b, c) == Count(a, c) + Count(b, c)
  {
    assert multiset(a + b) == multiset(a) + multiset(b);
  }

  lemma NoKids<D>(n: Tree<D>, p: Path, q: Path)
    ensures !InKids(n, p, q, |n.children|)
  {
  }

  /** q lies below the i-th child or below a later one, and not both. */
  lemma InKidsStep<D>(n: Tree<D>, p: Path, q: Path, i: nat)
    requires i < |n.children|
    ensures InKids(n, p, q, i) <==> Mentions(n.children[i], p + [i], q) || InKids(n, p, q, i + 1)
    ensures !(Mentions(n.children[i], p + [i], q) && InKids(n, p, q, i + 1))
  {
    if p <= q && |q| > |p| {
      assert q[|p|..][1..] == q[|p| + 1..];
      assert q[..|p| + 1] == p + [q[|p|]];
      assert p + [i] <= q <==> q[|p|] == i;
    }
  }

  ghost predicate InKids<D>(n: Tree<D>, p: Path, q: Path, i: nat)
  {
    p <= q && |q| > |p| && q[|p|] >= i && Valid(n, q[|p|..])
  }

  /** The visit of every group of the subtree, with everything below it, is one contiguous block of the walk. */
  lemma {:induction false} TourNests<D>(n: Tree<D>, p: Path, r: Path) returns (pre: seq<Call>, post: seq<Call>)
    requires Valid(n, r)
    ensures Tour(n, p) == pre + Tour(At(n, r), p + r) + post
    ensures r != [] ==> 0 < |pre| && pre[0] == Down(p) && 0 < |post| && post[|post| - 1] == Up(p)
    decreases n, |r|
  {
    if r == [] {
      assert p + r == p;
      pre, post := [], [];
    } else {
      var i := r[0];
      var a, b := KidsFrom(n, p, 0, i);
      var x, y := TourNests(n.children[i], p + [i], r[1..]);
      assert p + [i] + r[1..] == p + r;
      pre, post := [Down(p)] + a + x, y + b + [Up(p)];
      assert Tour(n, p) == [Down(p)] + (a + Tour(n.children[i], p + [i]) + b) + [Up(p)];
      Regroup([Down(p)], a, x, Tour(At(n, r), p + r), y, b, [Up(p)]);
    }
  }

  lemma Regroup<T>(d: seq<T>, a: seq<T>, x: seq<T>, m: seq<T>, y: seq<T>, b: seq<T>, u: seq<T>)
    ensures d + (a + (x + m + y) + b) + u == (d + a + x) + m + (y + b + u)
  {
  }

  /** Children are walked in the order of their list. */
  lemma SiblingOrder<D>(n: Tree<D>, p: Path, i: nat, j: nat) returns (a: seq<Call>, b: seq<Call>, c: seq<Call>)
    requires i < j < |n.children|
    ensures Tour(n, p) == a + Tour(n.children[i], p + [i]) + b + Tour(n.children[j], p + [j]) + c
  {
    var x, y := KidsFrom(n, p, 0, i);
    var v, w := KidsFrom(n, p, i + 1, j);
    a, b, c := [Down(p)] + x, v, w + [Up(p)];
    Sides([Down(p)], x, Tour(n.children[i], p + [i]), v, Tour(n.children[j], p + [j]), w, [Up(p)]);
  }

  /** The walks of the children from the j-th on, with what follows the i-th. */
  lemma {:induction false} KidsFrom<D>(n: Tree<D>, p: Path, j: nat, i: nat) returns (a: seq<Call>, b: seq<Call>)
    requires j <= i < |n.children|
    ensures b == Kids(n, p, i + 1)
    ensures Kids(n, p, j) == a + Tour(n.children[i], p + [i]) + b
    decreases i - j
  {
    if j == i {
      a, b := [], Kids(n, p, i + 1);
    } else {
      a, b := KidsFrom(n, p, j + 1, i);
      a := Tour(n.children[j], p + [j]) + a;
    }
  }

  lemma Sides<T>(d: seq<T>, x: seq<T>, m: seq<T>, v: seq<T>, n: seq<T>, w: seq<T>, u: seq<T>)
    ensures d + (x + m + (v + n + w)) + u == (d + x) + m + v + n + (w + u)
  {
  }

  /** The visitors' data after a sequence of calls. */
  function Threaded<S>(visit: (Call, S) -> (int, S), calls: seq<Call>, s: S): S
  {
    if calls == [] then s else Threaded(visit, calls[1..], visit(calls[0], s).1)
  }

  lemma ThreadedTake<S(!new)>(visit: (Call, S) -> (int, S), c: Call, rest: seq<Call>, i: nat, s: S)
    requires i <= |rest|
    ensures Threaded(visit, ([c] + rest)[..i + 1], s) == Threaded(visit, rest[..i], visit(c, s).1)
    ensures Threaded(visit, ([c] + rest)[..0], s) == s
  {
    assert ([c] + rest)[..i + 1] == [c] + rest[..i];
    assert ([c] + rest[..i])[1..] == rest[..i];
  }

  /** The walk makes the calls in order up to the first that returns non-zero: the calls made begin the tour, and every
      call got the data the one before it left. */
  lemma {:induction false} PerformBegins<S(!new)>(visit: (Call, S) -> (int, S), calls: seq<Call>, s: S)
    ensures var o := Perform(visit, calls, s);
            && o.calls <= calls && o.data == Threaded(visit, o.calls, s)
            && (o.ret == 0 ==> o.calls == calls) && (o.ret != 0 ==> o.calls != [])
    decreases |calls|
  {
    if calls != [] {
      var (ret, s1) := visit(calls[0], s);
      var o := Perform(visit, calls, s);
      if ret == 0 {
        PerformBegins(visit, calls[1..], s1);
        assert o.calls[1..] == Perform(visit, calls[1..], s1).calls;
      } else {
        assert o.calls[1..] == [];
      }
    }
  }

  /** All calls made but the last returned zero, and so did the last if the walk does; otherwise it returned what the
      walk returns. */
  lemma {:induction false} PerformStops<S(!new)>(visit: (Call, S) -> (int, S), calls: seq<Call>, s: S, i: nat)
    requires i < |Perform(visit, calls, s).calls|
    ensures var o := Perform(visit, calls, s);
            visit(o.calls[i], Threaded(visit, o.calls[..i], s)).0 == if i < |o.calls| - 1 then 0 else o.ret
    decreases |calls|
  {
    var o := Perform(visit, calls, s);
    var (ret, s1) := visit(calls[0], s);
    if ret == 0 {
      var r := Perform(visit, calls[1..], s1);
      assert o.calls == [calls[0]] + r.calls;
      PerformBegins(visit, calls[1..], s1);
      if i > 0 {
        PerformStops(visit, calls[1..], s1, i - 1);
        hide Threaded;
        ThreadedTake(visit, calls[0], r.calls, i - 1, s);
      } else {
        ThreadedTake(visit, calls[0], r.calls, 0, s);
      }
    } else {
      assert o.calls == [calls[0]] && o.calls[..0] == [];
    }
  }
}
