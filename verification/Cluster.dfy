/** Pods, nodes and node infos, as far as the simulations look at them. */
module Cluster {
  import opened Collections
  import opened Wrappers

  datatype Resource = Cpu | Memory | PodSlots

  datatype Container = Container(requests: map<Resource, nat>, hostPorts: seq<int>)

  datatype PodSpec = PodSpec(nodeName: string, containers: seq<Container>)

  /** `controller` is the UID of the owning controller, if there is one. */
  datatype Pod = Pod(namespace: string, name: string, controller: Option<string>,
                     labels: map<string, string>, spec: PodSpec)

  datatype Node = Node(name: string, capacity: map<Resource, nat>, allocatable: map<Resource, nat>)

  /** What the scheduler knows about a node: the node and the pods on it, in the order they came. */
  datatype NodeInfo<N> = NodeInfo(node: N, pods: seq<Pod>)
  {
    function With(pod: Pod): NodeInfo<N> {
      NodeInfo(node, pods + [pod])
    }
  }

  /** The scheduler predicates: does the pod pass on the node, with the pods already there? */
  type Predicate<!N> = (Pod, NodeInfo<N>) -> bool

  function ContainersRequest(cs: seq<Container>, r: Resource): nat {
    if cs == [] then 0
    else ContainersRequest(cs[..|cs| - 1], r) + (var q := cs[|cs| - 1].requests; if r in q then q[r] else 0)
  }

  function PodRequest(pod: Pod, r: Resource): nat {
    ContainersRequest(pod.spec.containers, r)
  }

  // ----- sums of a size over pods

  function Sum(size: Pod -> nat, pods: seq<Pod>): nat {
    if pods == [] then 0 else Sum(size, pods[..|pods| - 1]) + size(pods[|pods| - 1])
  }

  lemma SumSnoc(size: Pod -> nat, pods: seq<Pod>, pod: Pod)
    ensures Sum(size, pods + [pod]) == Sum(size, pods) + size(pod)
  {
    assert (pods + [pod])[..|pods|] == pods;
  }

  lemma {:induction false} SumAppend(size: Pod -> nat, a: seq<Pod>, b: seq<Pod>)
    ensures Sum(size, a + b) == Sum(size, a) + Sum(size, b)
  {
    if b == [] {
      assert a + b == a;
    } else {
      SumAppend(size, a, b[..|b| - 1]);
      assert (a + b)[..|a + b| - 1] == a + b[..|b| - 1];
    }
  }

  /** A sum does not depend on the order of the pods. */
  lemma {:induction false} SumPermutation(size: Pod -> nat, a: seq<Pod>, b: seq<Pod>)
    requires multiset(a) == multiset(b)
    ensures Sum(size, a) == Sum(size, b)
  {
    if a == [] {
      assert |multiset(b)| == |b|;
    } else {
      var i := MatchLast(a, b);
      SumPermutation(size, a[..|a| - 1], Without(b, i));
      SumAppend(size, b[..i], b[i + 1..]);
      SumAppend(size, b[..i] + [b[i]], b[i + 1..]);
      SumAppend(size, b[..i], [b[i]]);
      assert b == b[..i] + [b[i]] + b[i + 1..];
    }
  }
}
