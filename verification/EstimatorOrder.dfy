/** The lower-bound estimator never exceeds any feasible packing, in particular not the first-fit one. */
module EstimatorOrder {
  import opened BasicEstimator
  import opened Cluster
  import opened FirstFit
  import opened FirstFitBounds
  import opened Collections

  /** The pods can share the node: within its capacity, and no host port asked for twice. */
  ghost predicate CanShare(node: Node, pods: seq<Pod>) {
    && Sum(Requests(Cpu), pods) <= CapacityOf(node, Cpu)
    && Sum(Requests(Memory), pods) <= CapacityOf(node, Memory)
    && |pods| <= CapacityOf(node, PodSlots)
    && forall p :: Sum(PortUse(p), pods) <= 1
  }

  /** The node of bin `i` when `bins` are the upcoming nodes followed by new ones. */
  function BinNode(template: Node, upcoming: seq<Node>, i: nat): Node {
    if i < |upcoming| then upcoming[i] else template
  }

  /** `bins` puts each of the pods on an upcoming or a new node that can take it. */
  ghost predicate Packing(pods: seq<Pod>, template: Node, upcoming: seq<Node>, bins: seq<seq<Pod>>) {
    && |upcoming| <= |bins|
    && multiset(Flatten(bins)) == multiset(pods)
    && forall i :: 0 <= i < |bins| ==> CanShare(BinNode(template, upcoming, i), bins[i])
  }

  // ----- any packing covers the total demand

  function BinCapacities(capacity: Node -> nat, template: Node, upcoming: seq<Node>, n: nat): nat {
    if n == 0 then 0
    else BinCapacities(capacity, template, upcoming, n - 1) + capacity(BinNode(template, upcoming, n - 1))
  }

  lemma {:induction false} PackedWithin(size: Pod -> nat, capacity: Node -> nat, template: Node, upcoming: seq<Node>,
                                        bins: seq<seq<Pod>>)
    requires forall i :: 0 <= i < |bins| ==> Sum(size, bins[i]) <= capacity(BinNode(template, upcoming, i))
    ensures Sum(size, Flatten(bins)) <= BinCapacities(capacity, template, upcoming, |bins|)
  {
    if bins != [] {
      var n := |bins| - 1;
      assert forall i :: 0 <= i < n ==> bins[..n][i] == bins[i];
      PackedWithin(size, capacity, template, upcoming, bins[..n]);
      SumAppend(size, Flatten(bins[..n]), bins[n]);
    }
  }

  function CapacityFor(r: Resource): Node -> nat {
    node => CapacityOf(node, r)
  }

  lemma {:induction false} UpcomingCapacities(r: Resource, template: Node, upcoming: seq<Node>, n: nat)
    requires n <= |upcoming|
    ensures BinCapacities(CapacityFor(r), template, upcoming, n) == Capacities(upcoming[..n], r)
  {
    if n > 0 {
      UpcomingCapacities(r, template, upcoming, n - 1);
      assert upcoming[..n][..n - 1] == upcoming[..n - 1];
    }
  }

  lemma {:induction false} AllCapacities(r: Resource, template: Node, upcoming: seq<Node>, n: nat)
    requires n >= |upcoming|
    ensures BinCapacities(CapacityFor(r), template, upcoming, n) ==
            Capacities(upcoming, r) + (n - |upcoming|) * CapacityOf(template, r)
  {
    if n == |upcoming| {
      UpcomingCapacities(r, template, upcoming, n);
      assert upcoming[..n] == upcoming;
    } else {
      AllCapacities(r, template, upcoming, n - 1);
      OneMore(n - 1 - |upcoming|, CapacityOf(template, r));
    }
  }

  lemma {:induction false} UnitCapacities(template: Node, upcoming: seq<Node>, n: nat)
    ensures BinCapacities(node => 1, template, upcoming, n) == n
  {
    if n > 0 {
      UnitCapacities(template, upcoming, n - 1);
    }
  }

  lemma {:induction false} CountIsSum(pods: seq<Pod>)
    ensures Sum(pod => 1, pods) == |pods|
  {
    if pods != [] {
      CountIsSum(pods[..|pods| - 1]);
    }
  }

  lemma {:induction false} PodSetSize(pods: seq<Pod>)
    ensures |PodSet(pods)| <= |pods|
  {
    if pods != [] {
      var n := |pods| - 1;
      PodSetSize(pods[..n]);
      assert pods == pods[..n] + [pods[n]];
      assert PodSet(pods) == PodSet(pods[..n]) + {pods[n]};
    }
  }

  lemma ResourceSumWithin(pods: seq<Pod>, template: Node, upcoming: seq<Node>, bins: seq<seq<Pod>>, r: Resource)
    requires Packing(pods, template, upcoming, bins) && r in {Cpu, Memory}
    ensures Sum(Requests(r), pods) <= BinCapacities(CapacityFor(r), template, upcoming, |bins|)
  {
    PackedWithin(Requests(r), CapacityFor(r), template, upcoming, bins);
    SumPermutation(Requests(r), pods, Flatten(bins));
  }

  lemma SlotsWithin(pods: seq<Pod>, template: Node, upcoming: seq<Node>, bins: seq<seq<Pod>>)
    requires Packing(pods, template, upcoming, bins)
    ensures |PodSet(pods)| <= BinCapacities(CapacityFor(PodSlots), template, upcoming, |bins|)
  {
    forall i | 0 <= i < |bins|
      ensures Sum(pod => 1, bins[i]) <= CapacityFor(PodSlots)(BinNode(template, upcoming, i))
    {
      CountIsSum(bins[i]);
    }
    PackedWithin(pod => 1, CapacityFor(PodSlots), template, upcoming, bins);
    CountIsSum(Flatten(bins));
    PodSetSize(pods);
    assert |multiset(pods)| == |pods| && |multiset(Flatten(bins))| == |Flatten(bins)|;
  }

  lemma PortsWithin(pods: seq<Pod>, template: Node, upcoming: seq<Node>, bins: seq<seq<Pod>>, port: int)
    requires Packing(pods, template, upcoming, bins)
    ensures Sum(PortUse(port), pods) <= |bins|
  {
    PackedWithin(PortUse(port), node => 1, template, upcoming, bins);
    UnitCapacities(template, upcoming, |bins|);
    SumPermutation(PortUse(port), pods, Flatten(bins));
  }

  /** The new nodes of a packing supply what the upcoming nodes lack. */
  lemma LackWithin(pods: seq<Pod>, template: Node, upcoming: seq<Node>, bins: seq<seq<Pod>>, r: Resource)
    requires Packing(pods, template, upcoming, bins) && r in template.capacity
    ensures Lack(pods, upcoming, r) <= (|bins| - |upcoming|) * template.capacity[r]
  {
    AllCapacities(r, template, upcoming, |bins|);
    if r == PodSlots {
      SlotsWithin(pods, template, upcoming, bins);
    } else {
      ResourceSumWithin(pods, template, upcoming, bins, r);
    }
  }

  /** Quotients by zero, converted to integers, come to at most `n`. */
  ghost predicate ZerosCovered(pods: seq<Pod>, template: Node, upcoming: seq<Node>, byZero: int -> int, n: int) {
    forall r :: r in template.capacity && template.capacity[r] == 0 ==> byZero(Lack(pods, upcoming, r)) <= n
  }

  lemma PackingCovers(pods: seq<Pod>, template: Node, upcoming: seq<Node>, byZero: int -> int, bins: seq<seq<Pod>>)
    requires Packing(pods, template, upcoming, bins)
    ensures Covers(pods, template, upcoming, byZero, ALL_RESOURCES, PortsOf(pods), |bins| - |upcoming|) <==>
            ZerosCovered(pods, template, upcoming, byZero, |bins| - |upcoming|)
  {
    forall r | r in template.capacity ensures Lack(pods, upcoming, r) <= (|bins| - |upcoming|) * template.capacity[r] {
      LackWithin(pods, template, upcoming, bins, r);
    }
    forall p | p in PortsOf(pods) ensures PortCovered(pods, upcoming, p, |bins| - |upcoming|) {
      PortsWithin(pods, template, upcoming, bins, p);
    }
    forall r: Resource ensures r in ALL_RESOURCES {
      match r case Cpu => case Memory => case PodSlots =>
    }
  }

  /**
   * The estimate of the lower-bound estimator is at most the number of new nodes of any packing,
   * exactly if the quotients by zero are. If the template has some of each resource it reports there
   * are none; and if there are, their dividends are not positive, so it is enough that minus infinity
   * and an undefined quotient are not converted to a positive number.
   */
  lemma BasicNeverOverestimates(pods: seq<Pod>, template: Node, upcoming: seq<Node>, byZero: int -> int,
                                bins: seq<seq<Pod>>, estimate: int)
    requires LeastCover(pods, template, upcoming, byZero, ALL_RESOURCES, PortsOf(pods), estimate)
    requires Packing(pods, template, upcoming, bins)
    ensures estimate <= |bins| - |upcoming| <==> ZerosCovered(pods, template, upcoming, byZero, |bins| - |upcoming|)
    ensures (forall x :: x <= 0 ==> byZero(x) <= 0) ==> estimate <= |bins| - |upcoming|
  {
    PackingCovers(pods, template, upcoming, byZero, bins);
    forall r | r in template.capacity && template.capacity[r] == 0 ensures Lack(pods, upcoming, r) <= 0 {
      LackWithin(pods, template, upcoming, bins, r);
    }
  }

  // ----- and first fit is such a packing

  function AllocatableOf(node: Node, r: Resource): nat {
    if r in node.allocatable then node.allocatable[r] else 0
  }

  ghost predicate AllocatableWithinCapacity(node: Node) {
    forall r :: AllocatableOf(node, r) <= CapacityOf(node, r)
  }

  /** A pod that passes leaves the node within its allocatable resources and free of port conflicts. */
  ghost predicate Enforces(fits: Predicate<Node>) {
    forall pod, info :: fits(pod, info) ==> StaysAllocatable(info.node, info.pods + [pod])
  }

  ghost predicate StaysAllocatable(node: Node, pods: seq<Pod>) {
    && Sum(Requests(Cpu), pods) <= AllocatableOf(node, Cpu)
    && Sum(Requests(Memory), pods) <= AllocatableOf(node, Memory)
    && |pods| <= AllocatableOf(node, PodSlots)
    && forall p :: Sum(PortUse(p), pods) <= 1
  }

  function NodesOf(infos: seq<Info>): seq<Node> {
    seq(|infos|, i requires 0 <= i < |infos| => infos[i].node)
  }

  /** The pods that first fit added to each node. */
  function AddedTo(template: Info, upcoming: seq<Info>, nodes: seq<Info>): seq<seq<Pod>>
    requires forall i :: 0 <= i < |nodes| ==> |Base(template, upcoming, i).pods| <= |nodes[i].pods|
  {
    seq(|nodes|, i requires 0 <= i < |nodes| => nodes[i].pods[|Base(template, upcoming, i).pods|..])
  }

  lemma SuffixCanShare(node: Node, pods: seq<Pod>, from: nat)
    requires from <= |pods| && StaysAllocatable(node, pods) && AllocatableWithinCapacity(node)
    ensures CanShare(node, pods[from..])
  {
    assert pods == pods[..from] + pods[from..];
    SumAppend(Requests(Cpu), pods[..from], pods[from..]);
    SumAppend(Requests(Memory), pods[..from], pods[from..]);
    forall p ensures Sum(PortUse(p), pods[from..]) <= 1 {
      SumAppend(PortUse(p), pods[..from], pods[from..]);
    }
    assert AllocatableOf(node, Cpu) <= CapacityOf(node, Cpu);
    assert AllocatableOf(node, Memory) <= CapacityOf(node, Memory);
    assert AllocatableOf(node, PodSlots) <= CapacityOf(node, PodSlots);
  }

  /** The last pod passed on top of the others, so the node is within its allocatable resources. */
  lemma LastPassed(fits: Predicate<Node>, template: Info, upcoming: seq<Info>, i: nat, info: Info)
    requires Enforces(fits) && WellPacked(fits, template, upcoming, i, info)
    requires |Base(template, upcoming, i).pods| < |info.pods|
    requires i >= |upcoming| ==> fits(info.pods[|template.pods|], template)
    ensures StaysAllocatable(info.node, info.pods)
  {
    var last := |info.pods| - 1;
    if last >= OpeningLoad(template, upcoming, i) {
      assert fits(info.pods[last], NodeInfo(info.node, info.pods[..last]));
      assert info.pods[..last] + [info.pods[last]] == info.pods;
    } else {
      assert fits(info.pods[last], template);
      assert template.pods + [info.pods[last]] == info.pods;
    }
  }

  /** On every node that received a pod the last one passed, so the node is within its resources. */
  lemma AddedCanShare(fits: Predicate<Node>, template: Info, upcoming: seq<Info>, i: nat, info: Info)
    requires Enforces(fits)
    requires AllocatableWithinCapacity(Base(template, upcoming, i).node)
    requires WellPacked(fits, template, upcoming, i, info)
    requires i >= |upcoming| ==> fits(info.pods[|template.pods|], template)
    ensures CanShare(info.node, info.pods[|Base(template, upcoming, i).pods|..])
  {
    var from := |Base(template, upcoming, i).pods|;
    if from < |info.pods| {
      LastPassed(fits, template, upcoming, i, info);
      SuffixCanShare(info.node, info.pods, from);
    }
  }

  /** What the nodes of a packing carried before the loop. */
  ghost function BasePods(template: Info, upcoming: seq<Info>, n: nat): multiset<Pod> {
    if n == 0 then multiset{} else BasePods(template, upcoming, n - 1) + multiset(Base(template, upcoming, n - 1).pods)
  }

  lemma {:induction false} BasePodsAre(template: Info, upcoming: seq<Info>, n: nat)
    ensures n <= |upcoming| ==> BasePods(template, upcoming, n) == PodsOn(upcoming[..n])
    ensures n > |upcoming| ==>
              BasePods(template, upcoming, n) == PodsOn(upcoming) + Copies(template.pods, n - |upcoming|)
  {
    if n > 0 {
      BasePodsAre(template, upcoming, n - 1);
      if n <= |upcoming| {
        assert upcoming[..n][..n - 1] == upcoming[..n - 1];
      } else if n == |upcoming| + 1 {
        assert upcoming[..n - 1] == upcoming;
        assert Copies(template.pods, 1) == Copies(template.pods, 0) + multiset(template.pods);
      }
    }
  }

  ghost predicate Grown(template: Info, upcoming: seq<Info>, nodes: seq<Info>) {
    forall i :: 0 <= i < |nodes| ==> Base(template, upcoming, i).pods <= nodes[i].pods
  }

  lemma {:induction false} PodsSplit(template: Info, upcoming: seq<Info>, nodes: seq<Info>)
    requires Grown(template, upcoming, nodes)
    ensures PodsOn(nodes) ==
            BasePods(template, upcoming, |nodes|) + multiset(Flatten(AddedTo(template, upcoming, nodes)))
  {
    if nodes != [] {
      var n := |nodes| - 1;
      var base := Base(template, upcoming, n).pods;
      var added := AddedTo(template, upcoming, nodes);
      PodsSplit(template, upcoming, nodes[..n]);
      assert added[..n] == AddedTo(template, upcoming, nodes[..n]);
      assert nodes[n].pods == base + added[n];
      assert multiset(nodes[n].pods) == multiset(base) + multiset(added[n]);
      assert multiset(Flatten(added)) == multiset(Flatten(added[..n])) + multiset(added[n]);
    }
  }

  lemma DisciplinedGrows(fits: Predicate<Node>, template: Info, upcoming: seq<Info>, nodes: seq<Info>)
    requires Disciplined(fits, template, upcoming, nodes)
    ensures Grown(template, upcoming, nodes)
  {
    forall i | 0 <= i < |nodes| ensures Base(template, upcoming, i).pods <= nodes[i].pods {
      assert WellPacked(fits, template, upcoming, i, nodes[i]);
    }
  }

  lemma BasePodsInAll(template: Info, upcoming: seq<Info>, nodes: seq<Info>)
    requires |upcoming| <= |nodes|
    ensures BasePods(template, upcoming, |nodes|) == PodsOn(upcoming) + Loads(template, upcoming, nodes)
  {
    BasePodsAre(template, upcoming, |nodes|);
    assert upcoming[..|upcoming|] == upcoming;
  }

  /** Where pods are conserved, those added to the nodes are the given ones. */
  lemma AddedFromConserved(template: Info, upcoming: seq<Info>, order: seq<Pod>, nodes: seq<Info>)
    requires Grown(template, upcoming, nodes) && Conserved(template, upcoming, order, nodes)
    ensures multiset(Flatten(AddedTo(template, upcoming, nodes))) == multiset(order)
  {
    var base := BasePods(template, upcoming, |nodes|);
    var added := multiset(Flatten(AddedTo(template, upcoming, nodes)));
    BasePodsInAll(template, upcoming, nodes);
    PodsSplit(template, upcoming, nodes);
    CancelUnion(base, added, multiset(order));
  }

  lemma AddedIsOrder(fits: Predicate<Node>, template: Info, upcoming: seq<Info>, order: seq<Pod>)
    ensures
      var nodes := PlaceAll(fits, template, upcoming, order);
      && Grown(template, upcoming, nodes)
      && multiset(Flatten(AddedTo(template, upcoming, nodes))) == multiset(order)
  {
    var nodes := PlaceAll(fits, template, upcoming, order);
    FirstFitDiscipline(fits, template, upcoming, order);
    DisciplinedGrows(fits, template, upcoming, nodes);
    Conservation(fits, template, upcoming, order);
    AddedFromConserved(template, upcoming, order, nodes);
  }

  lemma OpenerPassed(fits: Predicate<Node>, template: Info, upcoming: seq<Info>, order: seq<Pod>, i: nat)
    requires forall pod :: pod in order ==> fits(pod, template)
    requires |upcoming| <= i < |PlaceAll(fits, template, upcoming, order)|
    ensures
      var info := PlaceAll(fits, template, upcoming, order)[i];
      |template.pods| < |info.pods| && fits(info.pods[|template.pods|], template)
  {
    var nodes := PlaceAll(fits, template, upcoming, order);
    FirstFitDiscipline(fits, template, upcoming, order);
    assert WellPacked(fits, template, upcoming, i, nodes[i]);
    AddedIsOrder(fits, template, upcoming, order);
    var added := AddedTo(template, upcoming, nodes);
    InFlatten(added, i, added[i][0]);
    assert added[i][0] in multiset(Flatten(added));
    assert added[i][0] in multiset(order);
  }

  /** If every pod fits an empty new node, what first fit builds is a feasible packing. */
  lemma FirstFitPacks(fits: Predicate<Node>, template: Info, upcoming: seq<Info>, pods: seq<Pod>, order: seq<Pod>)
    requires Enforces(fits) && multiset(order) == multiset(pods)
    requires forall pod :: pod in order ==> fits(pod, template)
    requires forall i :: 0 <= i <= |upcoming| ==> AllocatableWithinCapacity(Base(template, upcoming, i).node)
    ensures
      var nodes := PlaceAll(fits, template, upcoming, order);
      Grown(template, upcoming, nodes)
      && Packing(pods, template.node, NodesOf(upcoming), AddedTo(template, upcoming, nodes))
  {
    var nodes := PlaceAll(fits, template, upcoming, order);
    AddedIsOrder(fits, template, upcoming, order);
    FirstFitDiscipline(fits, template, upcoming, order);
    var added := AddedTo(template, upcoming, nodes);
    forall i | 0 <= i < |added|
      ensures CanShare(BinNode(template.node, NodesOf(upcoming), i), added[i])
    {
      assert WellPacked(fits, template, upcoming, i, nodes[i]);
      assert Base(template, upcoming, i) == Base(template, upcoming, if i < |upcoming| then i else |upcoming|);
      if i >= |upcoming| {
        OpenerPassed(fits, template, upcoming, order, i);
      }
      AddedCanShare(fits, template, upcoming, i, nodes[i]);
    }
  }

  /** On the same input the lower-bound estimator never asks for more nodes than bin packing does. */
  lemma BasicAtMostBinpacking(fits: Predicate<Node>, template: Info, upcoming: seq<Info>, pods: seq<Pod>,
                              order: seq<Pod>, byZero: int -> int, estimate: int)
    requires Enforces(fits) && multiset(order) == multiset(pods)
    requires forall pod :: pod in order ==> fits(pod, template)
    requires forall i :: 0 <= i <= |upcoming| ==> AllocatableWithinCapacity(Base(template, upcoming, i).node)
    requires LeastCover(pods, template.node, NodesOf(upcoming), byZero, ALL_RESOURCES, PortsOf(pods), estimate)
    ensures
      var n := |PlaceAll(fits, template, upcoming, order)| - |upcoming|;
      && (estimate <= n <==> ZerosCovered(pods, template.node, NodesOf(upcoming), byZero, n))
      && ((forall x :: x <= 0 ==> byZero(x) <= 0) ==> estimate <= n)
  {
    FirstFitPacks(fits, template, upcoming, pods, order);
    BasicNeverOverestimates(pods, template.node, NodesOf(upcoming), byZero,
                            AddedTo(template, upcoming, PlaceAll(fits, template, upcoming, order)), estimate);
  }
}
