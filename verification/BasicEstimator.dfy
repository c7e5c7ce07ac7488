/** The lower-bound node estimator (estimator/basic_estimator.go). */
module BasicEstimator {
  import opened Cluster
  import opened Collections

  /** The host ports a pod asks for; a port of zero or less means no host port. */
  function HostPorts(pod: Pod): set<int> {
    set c, p | c in pod.spec.containers && p in c.hostPorts && p > 0 :: p
  }

  function PortUse(port: int): Pod -> nat {
    pod => if port in HostPorts(pod) then 1 else 0
  }

  function Requests(r: Resource): Pod -> nat {
    pod => PodRequest(pod, r)
  }

  function PortsOf(pods: seq<Pod>): set<int> {
    set pod, p | pod in pods && p in HostPorts(pod) :: p
  }

  function PortCounts(pods: seq<Pod>): map<int, int> {
    map p | p in PortsOf(pods) :: Sum(PortUse(p), pods)
  }

  function PodSet(pods: seq<Pod>): set<Pod> {
    set pod | pod in pods
  }

  function CapacityOf(node: Node, r: Resource): nat {
    if r in node.capacity then node.capacity[r] else 0
  }

  function Capacities(nodes: seq<Node>, r: Resource): nat {
    if nodes == [] then 0 else Capacities(nodes[..|nodes| - 1], r) + CapacityOf(nodes[|nodes| - 1], r)
  }

  /** What the pods ask of resource `r` in all; a pod that was added twice takes one slot. */
  function Demand(pods: seq<Pod>, r: Resource): int {
    if r == PodSlots then |PodSet(pods)| else Sum(Requests(r), pods)
  }

  // ----- the aggregate bounds

  /** What the upcoming nodes lack of resource `r`. */
  function Lack(pods: seq<Pod>, upcoming: seq<Node>, r: Resource): int {
    Demand(pods, r) - Capacities(upcoming, r)
  }

  /**
   * `n` new nodes supply what is lacking. For a template that has none of the resource the code converts
   * a quotient by zero to an integer; `byZero` says what that gives on the machine at hand.
   */
  predicate ResourceCovered(pods: seq<Pod>, template: Node, upcoming: seq<Node>, byZero: int -> int, r: Resource,
                            n: int)
  {
    r in template.capacity ==>
      if template.capacity[r] == 0 then byZero(Lack(pods, upcoming, r)) <= n
        else Lack(pods, upcoming, r) <= n * template.capacity[r]
  }

  predicate PortCovered(pods: seq<Pod>, upcoming: seq<Node>, port: int, n: int) {
    Sum(PortUse(port), pods) - |upcoming| <= n
  }

  /** `n` new nodes, with the upcoming ones, cover the demand for the given resources and ports. */
  ghost predicate Covers(pods: seq<Pod>, template: Node, upcoming: seq<Node>, byZero: int -> int, rs: set<Resource>,
                         ports: set<int>, n: int)
  {
    && n >= 0
    && (forall r :: r in rs ==> ResourceCovered(pods, template, upcoming, byZero, r, n))
    && (forall p :: p in ports ==> PortCovered(pods, upcoming, p, n))
  }

  /** `n` is the least number of new nodes that does so. */
  ghost predicate LeastCover(pods: seq<Pod>, template: Node, upcoming: seq<Node>, byZero: int -> int, rs: set<Resource>,
                             ports: set<int>, n: int)
  {
    forall k :: Covers(pods, template, upcoming, byZero, rs, ports, k) <==> n <= k
  }

  const ALL_RESOURCES: set<Resource> := {Cpu, Memory, PodSlots}

  /** Division rounded up, for a positive divisor and any dividend. */
  function CeilDiv(a: int, b: int): (q: int)
    requires b > 0
    ensures a <= q * b && (q - 1) * b < a
  {
    -((-a) / b)
  }

  lemma CeilDivLeast(a: int, b: int, n: int)
    requires b > 0
    ensures CeilDiv(a, b) <= n <==> a <= n * b
  {
    var q := CeilDiv(a, b);
    if q <= n {
      assert q * b <= n * b;
    } else {
      assert n * b <= (q - 1) * b;
    }
  }

  function MaxInt(a: int, b: int): int {
    if a > b then a else b
  }

  /** The quotient rounded up, converted to an integer. */
  function Quotient(a: int, b: nat, byZero: int -> int): int {
    if b == 0 then byZero(a) else CeilDiv(a, b)
  }

  lemma CoverResource(pods: seq<Pod>, template: Node, upcoming: seq<Node>, byZero: int -> int, rs: set<Resource>,
                      r: Resource, n: int)
    requires r in template.capacity
    requires LeastCover(pods, template, upcoming, byZero, rs, {}, n)
    ensures LeastCover(pods, template, upcoming, byZero, rs + {r}, {},
                       MaxInt(n, Quotient(Lack(pods, upcoming, r), template.capacity[r], byZero)))
  {
    forall k
      ensures Covers(pods, template, upcoming, byZero, rs + {r}, {}, k) <==>
              Covers(pods, template, upcoming, byZero, rs, {}, k)
                && ResourceCovered(pods, template, upcoming, byZero, r, k)
    {
    }
    if template.capacity[r] > 0 {
      forall k {
        CeilDivLeast(Lack(pods, upcoming, r), template.capacity[r], k);
      }
    }
  }

  lemma CoverUnreported(pods: seq<Pod>, template: Node, upcoming: seq<Node>, byZero: int -> int, rs: set<Resource>,
                        r: Resource, n: int)
    requires r !in template.capacity
    requires LeastCover(pods, template, upcoming, byZero, rs, {}, n)
    ensures LeastCover(pods, template, upcoming, byZero, rs + {r}, {}, n)
  {
    forall k
      ensures Covers(pods, template, upcoming, byZero, rs + {r}, {}, k) <==>
              Covers(pods, template, upcoming, byZero, rs, {}, k)
    {
    }
  }

  lemma CoverPort(pods: seq<Pod>, template: Node, upcoming: seq<Node>, byZero: int -> int, rs: set<Resource>,
                  ports: set<int>, port: int, n: int)
    requires LeastCover(pods, template, upcoming, byZero, rs, ports, n)
    ensures LeastCover(pods, template, upcoming, byZero, rs, ports + {port},
                       MaxInt(n, Sum(PortUse(port), pods) - |upcoming|))
  {
    forall k
      ensures Covers(pods, template, upcoming, byZero, rs, ports + {port}, k) <==>
              Covers(pods, template, upcoming, byZero, rs, ports, k) && PortCovered(pods, upcoming, port, k)
    {
    }
  }

  // ----- the estimator

  method ContainerPorts(pod: Pod) returns (cpu: nat, memory: nat, ports: set<int>)
    ensures cpu == PodRequest(pod, Cpu) && memory == PodRequest(pod, Memory) && ports == HostPorts(pod)
  {
    cpu, memory, ports := 0, 0, {};
    var containers := pod.spec.containers;
    for k := 0 to |containers|
      invariant cpu == ContainersRequest(containers[..k], Cpu)
      invariant memory == ContainersRequest(containers[..k], Memory)
      invariant ports == set c, p | c in containers[..k] && p in c.hostPorts && p > 0 :: p
    {
      var container := containers[k];
      if Cpu in container.requests {
        cpu := cpu + container.requests[Cpu];
      }
      if Memory in container.requests {
        memory := memory + container.requests[Memory];
      }
      ports := ports + set p | p in container.hostPorts && p > 0;
      assert containers[..k + 1][..k] == containers[..k];
      assert containers[..k + 1] == containers[..k] + [container];
    }
    assert containers[..|containers|] == containers;
  }

  method CountPorts(counts: map<int, int>, ports: set<int>) returns (portSum: map<int, int>)
    ensures portSum == WithPorts(counts, ports)
  {
    portSum := counts;
    var todo := ports;
    while todo != {}
      invariant todo <= ports
      invariant portSum == WithPorts(counts, ports - todo)
    {
      ghost var some := Element(todo);
      var port :| port in todo;
      if port in portSum {
        portSum := portSum[port := portSum[port] + 1];
      } else {
        portSum := portSum[port := 1];
      }
      todo := todo - {port};
    }
    assert ports - todo == ports;
  }

  class BasicNodeEstimator {
    var cpuSum: int
    var memorySum: int
    var portSum: map<int, int>
    var fittingPods: set<Pod>
    /** The pods added so far. */
    ghost var added: seq<Pod>

    ghost predicate Valid()
      reads this
    {
      && cpuSum == Sum(Requests(Cpu), added)
      && memorySum == Sum(Requests(Memory), added)
      && portSum == PortCounts(added)
      && fittingPods == PodSet(added)
    }

    constructor ()
      ensures Valid() && added == []
    {
      cpuSum, memorySum, portSum, fittingPods := 0, 0, map[], {};
      added := [];
    }

    method Add(pod: Pod)
      requires Valid()
      modifies this
      ensures Valid() && added == old(added) + [pod]
    {
      var cpu, memory, ports := ContainerPorts(pod);
      cpuSum := cpuSum + cpu;
      memorySum := memorySum + memory;
      portSum := CountPorts(portSum, ports);
      fittingPods := fittingPods + {pod};
      added := added + [pod];
      AddedOne(old(added), pod);
    }

    method Estimate(pods: seq<Pod>, template: Node, upcoming: seq<Node>, byZero: int -> int) returns (result: int)
      requires Valid()
      modifies this
      ensures Valid() && added == old(added) + pods
      ensures LeastCover(added, template, upcoming, byZero, ALL_RESOURCES, PortsOf(added), result)
    {
      for k := 0 to |pods|
        invariant Valid() && added == old(added) + pods[..k]
      {
        Add(pods[k]);
      }
      assert pods[..|pods|] == pods;

      var comingCpu, comingMemory, comingPods := 0, 0, 0;
      for k := 0 to |upcoming|
        invariant comingCpu == Capacities(upcoming[..k], Cpu)
        invariant comingMemory == Capacities(upcoming[..k], Memory)
        invariant comingPods == Capacities(upcoming[..k], PodSlots)
      {
        assert upcoming[..k + 1][..k] == upcoming[..k];
        comingCpu := comingCpu + CapacityOf(upcoming[k], Cpu);
        comingMemory := comingMemory + CapacityOf(upcoming[k], Memory);
        comingPods := comingPods + CapacityOf(upcoming[k], PodSlots);
      }
      assert upcoming[..|upcoming|] == upcoming;
      result := ResourceBound(template, upcoming, comingCpu, comingMemory, comingPods, byZero);
      result := PortBound(template, upcoming, byZero, result);
    }

    method ResourceBound(template: Node, ghost upcoming: seq<Node>, comingCpu: int, comingMemory: int, comingPods: int,
                         byZero: int -> int)
      returns (result: int)
      requires Valid()
      requires comingCpu == Capacities(upcoming, Cpu) && comingMemory == Capacities(upcoming, Memory)
      requires comingPods == Capacities(upcoming, PodSlots)
      ensures LeastCover(added, template, upcoming, byZero, ALL_RESOURCES, {}, result)
    {
      result := 0;
      assert LeastCover(added, template, upcoming, byZero, {}, {}, result);
      if Cpu in template.capacity {
        CoverResource(added, template, upcoming, byZero, {}, Cpu, result);
        result := MaxInt(result, Quotient(cpuSum - comingCpu, template.capacity[Cpu], byZero));
      } else {
        CoverUnreported(added, template, upcoming, byZero, {}, Cpu, result);
      }
      assert LeastCover(added, template, upcoming, byZero, {} + {Cpu}, {}, result);
      if Memory in template.capacity {
        CoverResource(added, template, upcoming, byZero, {} + {Cpu}, Memory, result);
        result := MaxInt(result, Quotient(memorySum - comingMemory, template.capacity[Memory], byZero));
      } else {
        CoverUnreported(added, template, upcoming, byZero, {} + {Cpu}, Memory, result);
      }
      assert LeastCover(added, template, upcoming, byZero, {} + {Cpu} + {Memory}, {}, result);
      if PodSlots in template.capacity {
        CoverResource(added, template, upcoming, byZero, {} + {Cpu} + {Memory}, PodSlots, result);
        result := MaxInt(result, Quotient(|fittingPods| - comingPods, template.capacity[PodSlots], byZero));
      } else {
        CoverUnreported(added, template, upcoming, byZero, {} + {Cpu} + {Memory}, PodSlots, result);
      }
      assert {} + {Cpu} + {Memory} + {PodSlots} == ALL_RESOURCES;
    }

    method PortBound(ghost template: Node, upcoming: seq<Node>, ghost byZero: int -> int, atLeast: int)
      returns (result: int)
      requires Valid()
      requires LeastCover(added, template, upcoming, byZero, ALL_RESOURCES, {}, atLeast)
      ensures LeastCover(added, template, upcoming, byZero, ALL_RESOURCES, PortsOf(added), result)
    {
      result := atLeast;
      var todo := portSum.Keys;
      assert portSum.Keys == PortsOf(added);
      assert PortsOf(added) - todo == {};
      while todo != {}
        invariant todo <= PortsOf(added)
        invariant LeastCover(added, template, upcoming, byZero, ALL_RESOURCES, PortsOf(added) - todo, result)
      {
        var port :| port in todo;
        CoverPort(added, template, upcoming, byZero, ALL_RESOURCES, PortsOf(added) - todo, port, result);
        result := MaxInt(result, portSum[port] - |upcoming|);
        assert PortsOf(added) - (todo - {port}) == PortsOf(added) - todo + {port};
        todo := todo - {port};
      }
      assert PortsOf(added) - todo == PortsOf(added);
    }
  }

  /** `counts` with every port in `ports` used once more. */
  function WithPorts(counts: map<int, int>, ports: set<int>): map<int, int> {
    map p | p in counts.Keys + ports :: (if p in counts then counts[p] else 0) + (if p in ports then 1 else 0)
  }

  lemma {:induction false} UnusedPort(pods: seq<Pod>, port: int)
    requires port !in PortsOf(pods)
    ensures Sum(PortUse(port), pods) == 0
  {
    if pods != [] {
      var n := |pods| - 1;
      assert pods[n] in pods;
      assert forall pod :: pod in pods[..n] ==> pod in pods;
      UnusedPort(pods[..n], port);
    }
  }

  lemma PortCountsSnoc(pods: seq<Pod>, pod: Pod)
    ensures PortCounts(pods + [pod]) == WithPorts(PortCounts(pods), HostPorts(pod))
  {
    assert PortsOf(pods + [pod]) == PortsOf(pods) + HostPorts(pod);
    forall p | p in PortsOf(pods + [pod])
      ensures PortCounts(pods + [pod])[p] == WithPorts(PortCounts(pods), HostPorts(pod))[p]
    {
      SumSnoc(PortUse(p), pods, pod);
      if p !in PortsOf(pods) {
        UnusedPort(pods, p);
      }
    }
  }

  lemma AddedOne(pods: seq<Pod>, pod: Pod)
    ensures forall r :: Sum(Requests(r), pods + [pod]) == Sum(Requests(r), pods) + PodRequest(pod, r)
    ensures PortCounts(pods + [pod]) == WithPorts(PortCounts(pods), HostPorts(pod))
    ensures PodSet(pods + [pod]) == PodSet(pods) + {pod}
  {
    forall r ensures Sum(Requests(r), pods + [pod]) == Sum(Requests(r), pods) + PodRequest(pod, r) {
      SumSnoc(Requests(r), pods, pod);
    }
    PortCountsSnoc(pods, pod);
  }
}
