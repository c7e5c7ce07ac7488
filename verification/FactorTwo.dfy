/** With one limiting resource, first fit opens fewer than twice the nodes that any packing needs. */
module FactorTwo {
  import opened Cluster
  import opened Collections
  import opened FirstFit
  import opened FirstFitBounds

  /** `fits` is exactly "the sizes on the node stay within its capacity". */
  ghost predicate LimitsSize(fits: Predicate<Node>, size: Pod -> nat, capacity: Node -> nat) {
    forall pod, info :: fits(pod, info) <==> Sum(size, info.pods) + size(pod) <= capacity(info.node)
  }

  /** What an empty new node has left for pending pods. */
  function Room(size: Pod -> nat, capacity: Node -> nat, template: Info): int {
    capacity(template.node) - Sum(size, template.pods)
  }

  /** The size that pending pods take on a node opened from the template. */
  function Load(size: Pod -> nat, template: Info, info: Info): int {
    Sum(size, info.pods) - Sum(size, template.pods)
  }

  function NewLoads(size: Pod -> nat, template: Info, nodes: seq<Info>, from: nat): seq<int>
    requires from <= |nodes|
  {
    seq(|nodes| - from, i requires 0 <= i < |nodes| - from => Load(size, template, nodes[from + i]))
  }

  function Total(s: seq<int>): int {
    if s == [] then 0 else Total(s[..|s| - 1]) + s[|s| - 1]
  }

  lemma {:induction false} TotalUpdate(s: seq<int>, i: nat, d: int)
    requires i < |s|
    ensures Total(s[i := s[i] + d]) == Total(s) + d
  {
    var n := |s| - 1;
    if i == n {
      assert s[i := s[i] + d][..n] == s[..n];
    } else {
      TotalUpdate(s[..n], i, d);
      assert s[i := s[i] + d][..n] == s[..n][i := s[i] + d];
    }
  }

  // ----- two new nodes together carry more than one can hold

  lemma PrefixSum(size: Pod -> nat, pods: seq<Pod>, m: nat)
    requires m <= |pods|
    ensures Sum(size, pods[..m]) <= Sum(size, pods)
  {
    SumAppend(size, pods[..m], pods[m..]);
    assert pods == pods[..m] + pods[m..];
  }

  /** A node that once refused a pod has no room for it at the end either. */
  lemma RefusalMeansFull(fits: Predicate<Node>, size: Pod -> nat, capacity: Node -> nat, info: Info, from: nat,
                         pod: Pod)
    requires LimitsSize(fits, size, capacity)
    requires RefusedBy(fits, info, from, pod)
    ensures Sum(size, info.pods) + size(pod) > capacity(info.node)
  {
    var m :| from <= m <= |info.pods| && !fits(pod, NodeInfo(info.node, info.pods[..m]));
    PrefixSum(size, info.pods, m);
  }

  lemma OpenerIsCarried(size: Pod -> nat, template: Info, info: Info)
    requires template.pods < info.pods
    ensures Load(size, template, info) >= size(info.pods[|template.pods|])
  {
    var t := |template.pods|;
    PrefixSum(size, info.pods, t + 1);
    assert info.pods[..t + 1] == template.pods + [info.pods[t]];
    SumSnoc(size, template.pods, info.pods[t]);
  }

  lemma PairExceedsRoom(fits: Predicate<Node>, size: Pod -> nat, capacity: Node -> nat, template: Info,
                        upcoming: seq<Info>, nodes: seq<Info>, i: nat, j: nat)
    requires LimitsSize(fits, size, capacity)
    requires Disciplined(fits, template, upcoming, nodes)
    requires |upcoming| <= i < j < |nodes|
    ensures Load(size, template, nodes[i]) + Load(size, template, nodes[j]) > Room(size, capacity, template)
  {
    var opener := |template.pods|;
    assert WellPacked(fits, template, upcoming, i, nodes[i]) && WellPacked(fits, template, upcoming, j, nodes[j]);
    assert FirstChoice(fits, template, upcoming, nodes, i, j);
    RefusalMeansFull(fits, size, capacity, nodes[i], opener + 1, nodes[j].pods[opener]);
    OpenerIsCarried(size, template, nodes[j]);
  }

  // ----- and all new nodes together carry no more than the pending pods

  lemma PlaceNewLoads(fits: Predicate<Node>, size: Pod -> nat, template: Info, nodes: seq<Info>, pod: Pod, from: nat)
    requires from <= |nodes|
    ensures from <= |Place(fits, template, nodes, pod)|
    ensures Total(NewLoads(size, template, Place(fits, template, nodes, pod), from))
         <= Total(NewLoads(size, template, nodes, from)) + size(pod)
  {
    var k := FirstAccepting(fits, nodes, pod);
    var before := NewLoads(size, template, nodes, from);
    var after := NewLoads(size, template, Place(fits, template, nodes, pod), from);
    if k < from {
      assert after == before;
    } else if k < |nodes| {
      LoadWith(size, template, nodes[k], pod);
      TotalUpdate(before, k - from, size(pod));
      assert after == before[k - from := before[k - from] + size(pod)];
    } else {
      LoadWith(size, template, template, pod);
      assert after == before + [size(pod)];
    }
  }

  lemma LoadWith(size: Pod -> nat, template: Info, info: Info, pod: Pod)
    ensures Load(size, template, info.With(pod)) == Load(size, template, info) + size(pod)
  {
    SumSnoc(size, info.pods, pod);
  }

  lemma {:induction false} NewLoadsBound(fits: Predicate<Node>, size: Pod -> nat, template: Info, upcoming: seq<Info>,
                                         order: seq<Pod>)
    ensures
      var nodes := PlaceAll(fits, template, upcoming, order);
      && |upcoming| <= |nodes|
      && Total(NewLoads(size, template, nodes, |upcoming|)) <= Sum(size, order)
  {
    if order != [] {
      var n := |order| - 1;
      NewLoadsBound(fits, size, template, upcoming, order[..n]);
      PlaceNewLoads(fits, size, template, PlaceAll(fits, template, upcoming, order[..n]), order[n], |upcoming|);
    }
  }

  // ----- hence the bound

  predicate PairsExceed(s: seq<int>, c: int) {
    forall i, j :: 0 <= i < j < |s| ==> s[i] + s[j] > c
  }

  lemma {:induction false} PairsBoundTotal(s: seq<int>, c: int)
    requires |s| >= 2 && PairsExceed(s, c)
    ensures |s| * c < 2 * Total(s)
  {
    var n := |s|;
    assert s[..n - 1][..n - 2] == s[..n - 2];
    assert Total(s) == Total(s[..n - 2]) + s[n - 2] + s[n - 1];
    if n == 3 {
      assert s[..1][..0] == [];
      assert s[0] + s[1] > c && s[1] + s[2] > c && s[0] + s[2] > c;
    } else if n > 3 {
      PairsBoundTotal(s[..n - 2], c);
      assert (n - 2) * c + 2 * c == n * c;
    }
  }

  ghost predicate NodesExceed(size: Pod -> nat, template: Info, nodes: seq<Info>, from: nat, c: int) {
    forall i, j :: from <= i < j < |nodes| ==> Load(size, template, nodes[i]) + Load(size, template, nodes[j]) > c
  }

  /** `k` nodes with room `c` each are, from the second on, more than half filled by `total`. */
  predicate HalfFilled(k: int, c: int, total: int) {
    k >= 2 ==> k * c < 2 * total
  }

  lemma ExceedingLoads(size: Pod -> nat, template: Info, nodes: seq<Info>, from: nat, c: int, bound: int)
    requires from <= |nodes| && NodesExceed(size, template, nodes, from, c)
    requires Total(NewLoads(size, template, nodes, from)) <= bound
    ensures HalfFilled(|nodes| - from, c, bound)
  {
    var loads := NewLoads(size, template, nodes, from);
    assert PairsExceed(loads, c);
    if |loads| >= 2 {
      PairsBoundTotal(loads, c);
    }
  }

  /** Any two new nodes together carry more than the room of one. */
  lemma NewNodesExceed(fits: Predicate<Node>, size: Pod -> nat, capacity: Node -> nat, template: Info,
                       upcoming: seq<Info>, order: seq<Pod>)
    requires LimitsSize(fits, size, capacity)
    ensures NodesExceed(size, template, PlaceAll(fits, template, upcoming, order), |upcoming|,
                        Room(size, capacity, template))
  {
    var nodes := PlaceAll(fits, template, upcoming, order);
    FirstFitDiscipline(fits, template, upcoming, order);
    forall i, j | |upcoming| <= i < j < |nodes|
      ensures Load(size, template, nodes[i]) + Load(size, template, nodes[j]) > Room(size, capacity, template)
    {
      PairExceedsRoom(fits, size, capacity, template, upcoming, nodes, i, j);
    }
  }

  /** For every order of the pods: with k >= 2 new nodes, k times the room is less than twice the requests. */
  lemma NewNodesBound(fits: Predicate<Node>, size: Pod -> nat, capacity: Node -> nat, template: Info,
                      upcoming: seq<Info>, pods: seq<Pod>, order: seq<Pod>)
    requires LimitsSize(fits, size, capacity)
    requires multiset(order) == multiset(pods)
    ensures HalfFilled(|PlaceAll(fits, template, upcoming, order)| - |upcoming|, Room(size, capacity, template),
                       Sum(size, pods))
  {
    NewLoadsBound(fits, size, template, upcoming, order);
    SumPermutation(size, order, pods);
    NewNodesExceed(fits, size, capacity, template, upcoming, order);
    ExceedingLoads(size, template, PlaceAll(fits, template, upcoming, order), |upcoming|,
                   Room(size, capacity, template), Sum(size, pods));
  }

  // ----- against any packing

  /** The pods, split over `bins` so that each bin stays within the room of a new node. */
  ghost predicate Packs(size: Pod -> nat, room: int, pods: seq<Pod>, bins: seq<seq<Pod>>) {
    multiset(Flatten(bins)) == multiset(pods) && forall b :: b in bins ==> Sum(size, b) <= room
  }

  lemma {:induction false} PackedSum(size: Pod -> nat, room: int, bins: seq<seq<Pod>>)
    requires forall b :: b in bins ==> Sum(size, b) <= room
    ensures Sum(size, Flatten(bins)) <= |bins| * room
  {
    if bins != [] {
      var n := |bins| - 1;
      assert bins[n] in bins;
      PackedSum(size, room, bins[..n]);
      SumAppend(size, Flatten(bins[..n]), bins[n]);
      OneMore(n, room);
    }
  }

  lemma CancelFactor(k: nat, m: nat, c: int)
    requires k * c < m * c && c >= 0
    ensures k < m
  {
  }

  lemma NoPodsInNoBins(pods: seq<Pod>, bins: seq<seq<Pod>>)
    requires multiset(Flatten(bins)) == multiset(pods)
    ensures bins == [] ==> pods == []
  {
    assert |multiset(Flatten(bins))| == |Flatten(bins)| && |multiset(pods)| == |pods|;
  }

  /** With no upcoming nodes, first fit opens fewer than twice the nodes of any packing of the same pods. */
  lemma UnderTwiceAnyPacking(fits: Predicate<Node>, size: Pod -> nat, capacity: Node -> nat, template: Info,
                             pods: seq<Pod>, order: seq<Pod>, bins: seq<seq<Pod>>)
    requires LimitsSize(fits, size, capacity)
    requires multiset(order) == multiset(pods) && pods != []
    requires Packs(size, Room(size, capacity, template), pods, bins)
    ensures |PlaceAll(fits, template, [], order)| < 2 * |bins|
  {
    var k := |PlaceAll(fits, template, [], order)|;
    var room := Room(size, capacity, template);
    NoPodsInNoBins(pods, bins);
    assert bins[0] in bins;
    if k >= 2 {
      NewNodesBound(fits, size, capacity, template, [], pods, order);
      PackedSum(size, room, bins);
      SumPermutation(size, Flatten(bins), pods);
      UnderTwice(k, |bins|, room, Sum(size, pods));
    }
  }

  lemma UnderTwice(k: nat, m: nat, room: int, total: int)
    requires k * room < 2 * total && total <= m * room && room >= 0
    ensures k < 2 * m
  {
    assert 2 * (m * room) == (2 * m) * room;
    CancelFactor(k, 2 * m, room);
  }
}
