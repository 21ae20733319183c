/** What several parts of the model share. */
module Basics {

  datatype Option<T> = None | Some(value: T)

  const MAX_RT_PRIO := 100

  /** A group is named by its path from the root group, which is []. */
  type Path = seq<nat>

  function Parent(p: Path): Path
  {
    if p == [] then [] else p[..|p| - 1]
  }

  // ----- lists

  /** `list_del_init` on one list. */
  function Without<T(==)>(q: seq<T>, e: T): seq<T>
  {
    if q == [] then [] else if q[0] == e then q[1..] else [q[0]] + Without(q[1..], e)
  }

  /** `list_add` and `list_add_tail`. */
  function Link<T>(q: seq<T>, e: T, head: bool): seq<T>
  {
    if head then [e] + q else q + [e]
  }

  ghost predicate Distinct<T>(s: seq<T>)
  {
    forall i, j :: 0 <= i < j < |s| ==> s[i] != s[j]
  }

  lemma {:induction false} WithoutOk<T>(q: seq<T>, e: T)
    requires Distinct(q)
    ensures Distinct(Without(q, e))
    ensures forall x :: x in Without(q, e) <==> x in q && x != e
    ensures |Without(q, e)| == if e in q then |q| - 1 else |q|
    ensures e !in q ==> Without(q, e) == q
  {
    if q != [] {
      var rest := q[1..];
      assert Distinct(rest) && q[0] !in rest;
      assert forall x :: x in q <==> x == q[0] || x in rest;
      WithoutOk(rest, e);
    }
  }

  /** What is left keeps its order. */
  lemma {:induction false} WithoutSplit<T>(a: seq<T>, e: T, b: seq<T>)
    requires e !in a
    ensures Without(a + [e] + b, e) == a + b
  {
    var q := a + [e] + b;
    if a == [] {
      assert q[1..] == b;
      assert a + b == b;
    } else {
      assert q[1..] == a[1..] + [e] + b;
      WithoutSplit(a[1..], e, b);
      assert [a[0]] + (a[1..] + b) == a + b;
    }
  }

  lemma LinkOk<T>(q: seq<T>, e: T, head: bool)
    requires Distinct(q) && e !in q
    ensures Distinct(Link(q, e, head)) && |Link(q, e, head)| == |q| + 1
    ensures forall x :: x in Link(q, e, head) <==> x in q || x == e
  {
  }

  // ----- products

  /** Multiplication under a name, so that proofs can treat a product as one term. */
  function Product(a: nat, b: nat): nat
  {
    a * b
  }

  lemma ProductLaws(a: nat, b: nat, k: nat)
    ensures Product(a + b, k) == Product(a, k) + Product(b, k)
    ensures Product(0, k) == 0 && Product(1, k) == k
    ensures Product(a + 1, k) == Product(a, k) + k
    ensures a <= b ==> Product(a, k) <= Product(b, k)
    ensures a > 0 ==> Product(a, k) >= k
  {
  }

  function Pow2(n: nat): (r: nat)
    ensures r > 0
  {
    if n == 0 then 1 else 2 * Pow2(n - 1)
  }

  /** Halving loses one bit. */
  lemma HalfBelow(m: nat, k: nat)
    requires m < Pow2(k) && m > 0
    ensures k > 0 && m / 2 < Pow2(k - 1)
  {
  }
}
