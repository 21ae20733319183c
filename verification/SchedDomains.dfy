/**
 `partition_sched_domains`: moving from one partition of the CPUs into balancing domains to another, keeping the
 domains both have in common.
 */
module SchedDomains {
  import opened Basics

  /** A domain asked for: its CPUs and its attributes (no attributes stand for the default ones). */
  datatype Dom = Dom(mask: set<nat>, attr: int)

  /** A domain as built; `serial` tells one build from another. */
  datatype Built = Built(dom: Dom, serial: nat)

  predicate Disjoint(doms: seq<Dom>)
  {
    forall i, j :: 0 <= i < j < |doms| ==> doms[i].mask !! doms[j].mask
  }

  /** Which of the domains holds a CPU. */
  predicate Covered(doms: seq<Dom>, cpu: nat)
  {
    exists i :: 0 <= i < |doms| && cpu in doms[i].mask
  }

  /** CPU `cpu` is attached to the domain of the one mask that holds it, or detached if there is none. */
  predicate AttachedAt(at: Option<Built>, doms: seq<Dom>, cpu: nat)
  {
    if at.None? then !Covered(doms, cpu) else at.value.dom in doms && cpu in at.value.dom.mask
  }

  predicate Attached(attach: seq<Option<Built>>, doms: seq<Dom>)
  {
    forall cpu :: 0 <= cpu < |attach| ==> AttachedAt(attach[cpu], doms, cpu)
  }

  /** The inner loops: does some domain have this mask and these attributes? */
  method FindDomain(doms: seq<Dom>, d: Dom) returns (found: bool)
    ensures found <==> d in doms
  {
    var j := 0;
    while j < |doms|
      invariant 0 <= j <= |doms|
      invariant d !in doms[..j]
    {
      if doms[j] == d {
        return true;
      }
      j := j + 1;
    }
    assert doms[..j] == doms;
    return false;
  }

  /** `detach_destroy_domains`. */
  function Detach(attach: seq<Option<Built>>, mask: set<nat>): (r: seq<Option<Built>>)
    ensures |r| == |attach|
    ensures forall cpu :: 0 <= cpu < |r| ==> r[cpu] == if cpu in mask then None else attach[cpu]
  {
    seq(|attach|, cpu requires 0 <= cpu < |attach| => if cpu in mask then None else attach[cpu])
  }

  /** `build_sched_domains`, when its allocations succeed. */
  function Build(attach: seq<Option<Built>>, d: Dom, serial: nat): (r: seq<Option<Built>>)
    ensures |r| == |attach|
    ensures forall cpu :: 0 <= cpu < |r| ==> r[cpu] == if cpu in d.mask then Some(Built(d, serial)) else attach[cpu]
  {
    seq(|attach|, cpu requires 0 <= cpu < |attach| => if cpu in d.mask then Some(Built(d, serial)) else attach[cpu])
  }

  class Domains {
    var cur: seq<Dom>
    var attach: seq<Option<Built>>
    var serial: nat

    ghost predicate Valid()
      reads this
    {
      && Disjoint(cur)
      && Attached(attach, cur)
      && forall cpu :: 0 <= cpu < |attach| && attach[cpu].Some? ==> attach[cpu].value.serial < serial
    }

    /** Destroys the current domains that are not asked for again. */
    method Destroy(wanted: seq<Dom>, newTopology: bool)
      requires Valid()
      modifies this`attach
      ensures |attach| == |old(attach)|
      ensures forall cpu :: 0 <= cpu < |attach| ==>
                attach[cpu] == if old(attach)[cpu].Some? && (newTopology || old(attach)[cpu].value.dom !in wanted)
                               then None else old(attach)[cpu]
    {
      ghost var was := attach;
      var i := 0;
      while i < |cur|
        invariant 0 <= i <= |cur| && |attach| == |was|
        invariant forall cpu :: 0 <= cpu < |attach| ==>
                    attach[cpu] == if was[cpu].Some? && was[cpu].value.dom in cur[..i]
                                      && (newTopology || was[cpu].value.dom !in wanted)
                                   then None else was[cpu]
      {
        var keep := false;
        if !newTopology {
          keep := FindDomain(wanted, cur[i]);
        }
        if !keep {
          forall cpu | 0 <= cpu < |was| && cpu in cur[i].mask
            ensures was[cpu].Some? && was[cpu].value.dom == cur[i]
          {
            OneDomain(cur, was[cpu], cpu, i);
          }
          forall cpu | 0 <= cpu < |was| && was[cpu].Some? && was[cpu].value.dom == cur[i]
            ensures cpu in cur[i].mask
          {
            assert AttachedAt(was[cpu], cur, cpu);
          }
          attach := Detach(attach, cur[i].mask);
        }
        assert cur[..i + 1] == cur[..i] + [cur[i]];
        i := i + 1;
      }
      assert cur[..i] == cur;
      forall cpu | 0 <= cpu < |was| && was[cpu].Some? ensures was[cpu].value.dom in cur {
        assert AttachedAt(was[cpu], cur, cpu);
      }
    }

    /** `doms` is the new partition, or None to fall back to `count` domains of all usable CPUs. Afterwards every
        CPU is in the domain of the new mask that holds it and in no other; a domain asked for again keeps the build
        it had unless the topology changed, and every other domain is a new build. */
    method Partition(doms: Option<seq<Dom>>, count: nat, fallback: Dom, newTopology: bool)
      requires Valid()
      requires if doms.Some? then Disjoint(doms.value) && count == |doms.value| else count <= 1
      modifies this
      ensures Valid() && |attach| == |old(attach)|
      ensures cur == if doms.Some? then doms.value else if count == 0 then [] else [fallback]
      ensures forall cpu :: 0 <= cpu < |attach| && attach[cpu].Some? ==>
                if doms.Some? && !newTopology && attach[cpu].value.dom in old(cur)
                then attach[cpu] == old(attach)[cpu]
                else attach[cpu].value.serial >= old(serial)
    {
      hide Progress, Survivor, Disjoint;
      ghost var was, before, first := attach, cur, serial;
      var wanted := if doms.Some? then doms.value else if count == 0 then [] else [fallback];
      Destroy(if doms.Some? then doms.value else [], newTopology);
      ghost var left := attach;
      var known := if doms.Some? then cur else [];
      ghost var reuse := doms.Some? && !newTopology;
      forall cpu | 0 <= cpu < |left|
        ensures Survivor(left[cpu], was[cpu], before, wanted, reuse, cpu)
        ensures Progress(left[cpu], left[cpu], before, wanted, 0, reuse, cpu, first, serial)
      {
        assert AttachedAt(was[cpu], before, cpu);
        Survives(left[cpu], was[cpu], before, wanted, reuse, cpu, first);
      }
      var i := 0;
      while i < |wanted|
        invariant 0 <= i <= |wanted| && |attach| == |left| && serial >= first && cur == before
        invariant forall cpu :: 0 <= cpu < |left| ==>
                    Progress(attach[cpu], left[cpu], before, wanted, i, reuse, cpu, first, serial)
      {
        var keep := false;
        if !newTopology {
          keep := FindDomain(known, wanted[i]);
        }
        ghost var prev, next := attach, serial;
        if !keep {
          attach := Build(attach, wanted[i], serial);
          serial := serial + 1;
        }
        forall cpu | 0 <= cpu < |left|
          ensures Progress(attach[cpu], left[cpu], before, wanted, i + 1, reuse, cpu, first, serial)
        {
          BuildStep(prev[cpu], left[cpu], was[cpu], before, wanted, i, reuse, cpu, first, next);
        }
        i := i + 1;
      }
      forall cpu | 0 <= cpu < |left|
        ensures AttachedAt(attach[cpu], wanted, cpu)
        ensures attach[cpu].Some? ==>
                  && attach[cpu].value.serial < serial
                  && if reuse && attach[cpu].value.dom in before then attach[cpu] == was[cpu]
                     else attach[cpu].value.serial >= first
      {
        Finished(attach[cpu], left[cpu], was[cpu], before, wanted, reuse, cpu, first, serial);
      }
      DisjointOne(fallback);
      cur := wanted;
    }
  }

  lemma DisjointOne(d: Dom)
    ensures Disjoint([d]) && Disjoint([])
  {
  }

  /** Before anything is built. */
  lemma Survives(left: Option<Built>, was: Option<Built>, before: seq<Dom>, wanted: seq<Dom>, reuse: bool, cpu: nat,
                 first: nat)
    requires AttachedAt(was, before, cpu)
    requires left == if was.Some? && reuse && was.value.dom in wanted then was else None
    ensures Survivor(left, was, before, wanted, reuse, cpu)
    ensures Progress(left, left, before, wanted, 0, reuse, cpu, first, first)
  {
  }

  /** After everything is built. */
  lemma Finished(at: Option<Built>, left: Option<Built>, was: Option<Built>, before: seq<Dom>, wanted: seq<Dom>,
                 reuse: bool, cpu: nat, first: nat, next: nat)
    requires Survivor(left, was, before, wanted, reuse, cpu)
    requires Progress(at, left, before, wanted, |wanted|, reuse, cpu, first, next)
    requires first <= next && (was.Some? ==> was.value.serial < first)
    ensures AttachedAt(at, wanted, cpu)
    ensures at.Some? ==>
              && at.value.serial < next
              && if reuse && at.value.dom in before then at == was else at.value.serial >= first
  {
    assert wanted[..|wanted|] == wanted;
  }

  /** What destroying leaves of a CPU's attachment: only builds of domains asked for again. */
  predicate Survivor(left: Option<Built>, was: Option<Built>, before: seq<Dom>, wanted: seq<Dom>, reuse: bool, cpu: nat)
  {
    && AttachedAt(was, before, cpu)
    && left == if was.Some? && reuse && was.value.dom in wanted then was else None
  }

  /** A CPU's attachment after building the first `i` domains. */
  predicate Progress(at: Option<Built>, left: Option<Built>, before: seq<Dom>, wanted: seq<Dom>, i: nat, reuse: bool,
                     cpu: nat, first: nat, next: nat)
    requires i <= |wanted|
  {
    if left.Some? then at == left
    else if at.None? then !Covered(wanted[..i], cpu)
    else
      && at.value.dom in wanted[..i] && cpu in at.value.dom.mask
      && first <= at.value.serial < next
      && !(reuse && at.value.dom in before)
  }

  /** Building or keeping domain `i` is right for every CPU, in the domain or not. */
  lemma BuildStep(at: Option<Built>, left: Option<Built>, was: Option<Built>, before: seq<Dom>, wanted: seq<Dom>,
                  i: nat, reuse: bool, cpu: nat, first: nat, next: nat)
    requires Disjoint(before) && Disjoint(wanted) && i < |wanted| && first <= next
    requires Survivor(left, was, before, wanted, reuse, cpu)
    requires Progress(at, left, before, wanted, i, reuse, cpu, first, next)
    ensures var keep := reuse && wanted[i] in before;
            var at' := if !keep && cpu in wanted[i].mask then Some(Built(wanted[i], next)) else at;
            Progress(at', left, before, wanted, i + 1, reuse, cpu, first, if keep then next else next + 1)
  {
    var keep := reuse && wanted[i] in before;
    assert wanted[..i + 1] == wanted[..i] + [wanted[i]];
    if cpu in wanted[i].mask {
      if keep {
        var j :| 0 <= j < |before| && before[j] == wanted[i];
        OneDomain(before, was, cpu, j);
      } else if left.Some? {
        OneDomain(wanted, left, cpu, i);
      }
    } else {
      assert Covered(wanted[..i + 1], cpu) ==> Covered(wanted[..i], cpu);
    }
  }

  /** A CPU is attached to no other domain than that of the mask that holds it. */
  lemma OneDomain(doms: seq<Dom>, at: Option<Built>, cpu: nat, i: nat)
    requires Disjoint(doms) && i < |doms| && cpu in doms[i].mask && AttachedAt(at, doms, cpu)
    ensures at.Some? && at.value.dom == doms[i]
  {
    assert Covered(doms, cpu);
    var j :| 0 <= j < |doms| && doms[j] == at.value.dom;
  }
}
