/** First-fit bin packing over upcoming and new nodes (estimator/binpacking_estimator.go). */
module FirstFit {
  import opened Cluster
  import opened Collections

  type Info = NodeInfo<Node>

  datatype PodInfo = PodInfo(score: real, pod: Pod)

  // ----- the packing loop, as a function of the order in which the pods come

  /** The first node of `nodes` that accepts `pod`, or `|nodes|`. */
  function FirstAccepting(fits: Predicate<Node>, nodes: seq<Info>, pod: Pod): (i: nat)
    ensures i <= |nodes|
    ensures forall j :: 0 <= j < i ==> !fits(pod, nodes[j])
    ensures i < |nodes| ==> fits(pod, nodes[i])
  {
    if nodes == [] || fits(pod, nodes[0]) then 0 else 1 + FirstAccepting(fits, nodes[1..], pod)
  }

  function Place(fits: Predicate<Node>, template: Info, nodes: seq<Info>, pod: Pod): seq<Info> {
    var i := FirstAccepting(fits, nodes, pod);
    if i < |nodes| then nodes[i := nodes[i].With(pod)] else nodes + [template.With(pod)]
  }

  function PlaceAll(fits: Predicate<Node>, template: Info, nodes: seq<Info>, pods: seq<Pod>): seq<Info> {
    if pods == [] then nodes
    else Place(fits, template, PlaceAll(fits, template, nodes, pods[..|pods| - 1]), pods[|pods| - 1])
  }

  // ----- the estimator

  /** The share of the template's allocatable cpu and memory that the pod requests. */
  function Score(pod: Pod, template: Info): real {
    Share(pod, template.node, Cpu) + Share(pod, template.node, Memory)
  }

  function Share(pod: Pod, node: Node, r: Resource): real {
    if r in node.allocatable && node.allocatable[r] > 0
    then PodRequest(pod, r) as real / node.allocatable[r] as real
    else 0.0
  }

  /** `order` is `pods`, some order of non-increasing score. */
  ghost predicate SortedByScore(template: Info, pods: seq<Pod>, order: seq<Pod>) {
    multiset(order) == multiset(pods)
    && forall i, j :: 0 <= i < j < |order| ==> Score(order[i], template) >= Score(order[j], template)
  }

  ghost function PodsOf(podInfos: seq<PodInfo>): seq<Pod> {
    seq(|podInfos|, i requires 0 <= i < |podInfos| => podInfos[i].pod)
  }

  ghost predicate ScoredFor(template: Info, podInfos: seq<PodInfo>) {
    forall i :: 0 <= i < |podInfos| ==> podInfos[i].score == Score(podInfos[i].pod, template)
  }

  method ContainerSum(pod: Pod, r: Resource) returns (sum: nat)
    ensures sum == PodRequest(pod, r)
  {
    sum := 0;
    var containers := pod.spec.containers;
    for k := 0 to |containers|
      invariant sum == ContainersRequest(containers[..k], r)
    {
      assert containers[..k + 1][..k] == containers[..k];
      if r in containers[k].requests {
        sum := sum + containers[k].requests[r];
      }
    }
    assert containers[..|containers|] == containers;
  }

  method CalculatePodScore(pods: seq<Pod>, template: Info) returns (podInfos: seq<PodInfo>)
    ensures PodsOf(podInfos) == pods && ScoredFor(template, podInfos)
  {
    podInfos := [];
    for k := 0 to |pods|
      invariant PodsOf(podInfos) == pods[..k] && ScoredFor(template, podInfos)
    {
      var cpuSum := ContainerSum(pods[k], Cpu);
      var memorySum := ContainerSum(pods[k], Memory);
      var score := 0.0;
      var allocatable := template.node.allocatable;
      if Cpu in allocatable && allocatable[Cpu] > 0 {
        score := score + cpuSum as real / allocatable[Cpu] as real;
      }
      if Memory in allocatable && allocatable[Memory] > 0 {
        score := score + memorySum as real / allocatable[Memory] as real;
      }
      podInfos := podInfos + [PodInfo(score, pods[k])];
    }
  }

  /** Takes out an element of highest score; which one, among equals, is left open. */
  method TakeMaximum(rest: seq<PodInfo>) returns (top: PodInfo, left: seq<PodInfo>)
    requires rest != []
    ensures multiset(rest) == multiset(left) + multiset{top} && |left| == |rest| - 1
    ensures forall x :: x in rest ==> top.score >= x.score
  {
    ghost var best := Maximum(rest);
    var m :| 0 <= m < |rest| && forall j :: 0 <= j < |rest| ==> rest[m].score >= rest[j].score;
    WithoutMultiset(rest, m);
    assert rest[m] in multiset(rest);
    top, left := rest[m], Without(rest, m);
  }

  /** Stands for the library's unstable sort: ties may come out in any order. */
  method SortByDescendingScore(podInfos: seq<PodInfo>) returns (sorted: seq<PodInfo>)
    ensures multiset(sorted) == multiset(podInfos)
    ensures forall i, j :: 0 <= i < j < |sorted| ==> sorted[i].score >= sorted[j].score
  {
    sorted := [];
    var rest := podInfos;
    while rest != []
      invariant multiset(sorted) + multiset(rest) == multiset(podInfos)
      invariant forall i, j :: 0 <= i < j < |sorted| ==> sorted[i].score >= sorted[j].score
      invariant forall i, x :: 0 <= i < |sorted| && x in rest ==> sorted[i].score >= x.score
      decreases |rest|
    {
      var top, left := TakeMaximum(rest);
      assert top in multiset(rest);
      forall x | x in left ensures x in rest {
        assert x in multiset(left) + multiset{top};
      }
      sorted := sorted + [top];
      rest := left;
    }
  }

  lemma {:induction false} Maximum(s: seq<PodInfo>) returns (m: nat)
    requires s != []
    ensures m < |s| && forall j :: 0 <= j < |s| ==> s[m].score >= s[j].score
  {
    var last := |s| - 1;
    m := last;
    if last > 0 {
      var n := Maximum(s[..last]);
      assert forall j :: 0 <= j < last ==> s[..last][j] == s[j];
      if s[n].score >= s[last].score {
        m := n;
      }
    }
  }

  lemma {:induction false} PodsOfPermutation(a: seq<PodInfo>, b: seq<PodInfo>)
    requires multiset(a) == multiset(b)
    ensures multiset(PodsOf(a)) == multiset(PodsOf(b))
  {
    if a == [] {
      assert |multiset(b)| == |b|;
    } else {
      var n := |a| - 1;
      var i := MatchLast(a, b);
      PodsOfPermutation(a[..n], Without(b, i));
      assert PodsOf(a) == PodsOf(a[..n]) + [a[n].pod];
      assert PodsOf(b) == PodsOf(b[..i]) + [b[i].pod] + PodsOf(b[i + 1..]);
      assert PodsOf(Without(b, i)) == PodsOf(b[..i]) + PodsOf(b[i + 1..]);
    }
  }

  lemma SortKeepsScores(template: Info, pods: seq<Pod>, podInfos: seq<PodInfo>, sorted: seq<PodInfo>)
    requires PodsOf(podInfos) == pods && ScoredFor(template, podInfos)
    requires multiset(sorted) == multiset(podInfos)
    requires forall i, j :: 0 <= i < j < |sorted| ==> sorted[i].score >= sorted[j].score
    ensures SortedByScore(template, pods, PodsOf(sorted))
  {
    PodsOfPermutation(sorted, podInfos);
    forall i | 0 <= i < |sorted| ensures sorted[i].score == Score(sorted[i].pod, template) {
      assert sorted[i] in multiset(podInfos);
      assert sorted[i] in podInfos;
    }
  }

  /** First fit opens `count` new nodes for the pods in some order of non-increasing score. */
  ghost predicate FirstFitCount(fits: Predicate<Node>, template: Info, upcoming: seq<Info>, pods: seq<Pod>, count: int)
  {
    exists order ::
      SortedByScore(template, pods, order) && count == |PlaceAll(fits, template, upcoming, order)| - |upcoming|
  }

  class BinpackingNodeEstimator {
    /** The predicate checker. */
    const fits: Predicate<Node>

    constructor (fits: Predicate<Node>)
      ensures this.fits == fits
    {
      this.fits := fits;
    }

    /** Packs the pods in some order of non-increasing score and counts the nodes that had to be added. */
    method Estimate(pods: seq<Pod>, template: Info, upcoming: seq<Info>)
      returns (count: int)
      ensures FirstFitCount(fits, template, upcoming, pods, count)
    {
      var podInfos := CalculatePodScore(pods, template);
      ghost var unsorted := podInfos;
      podInfos := SortByDescendingScore(podInfos);
      ghost var order := PodsOf(podInfos);
      SortKeepsScores(template, pods, unsorted, podInfos);

      var newNodes := upcoming;
      for k := 0 to |podInfos|
        invariant newNodes == PlaceAll(fits, template, upcoming, order[..k])
      {
        newNodes := PlaceOne(newNodes, template, podInfos[k].pod);
        assert order[..k + 1][..k] == order[..k];
      }
      assert order[..|podInfos|] == order;
      count := |newNodes| - |upcoming|;
    }

    /** One round of the packing loop. */
    method PlaceOne(nodes: seq<Info>, template: Info, pod: Pod) returns (newNodes: seq<Info>)
      ensures newNodes == Place(fits, template, nodes, pod)
    {
      newNodes := nodes;
      var found := false;
      var i := 0;
      while i < |newNodes| && !found
        invariant i <= |nodes|
        invariant i <= FirstAccepting(fits, nodes, pod)
        invariant found ==> i == FirstAccepting(fits, nodes, pod) < |nodes|
        invariant newNodes == if found then nodes[i := nodes[i].With(pod)] else nodes
        decreases |nodes| - i, !found
      {
        if fits(pod, newNodes[i]) {
          found := true;
          newNodes := newNodes[i := newNodes[i].With(pod)];
        } else {
          i := i + 1;
        }
      }
      if !found {
        newNodes := newNodes + [template.With(pod)];
      }
    }
  }
}
