/** Deleting empty nodes in bulk within group minimums and cluster-wide resource limits (core/scale_down.go). */
module ScaleDownLimits {
  import opened Wrappers

  /** Stands for a limit that could not be read: the least 64-bit integer. */
  const LIMIT_UNKNOWN: int := -0x8000_0000_0000_0000

  type Limits = map<string, int>

  type Delta = map<string, int>

  /** `total - min` when positive, else nothing may be removed. */
  function ComputeAboveMin(total: int, min: int): int {
    if total > min then total - min else 0
  }

  predicate LimitsSane(limits: Limits) {
    forall r :: r in limits ==> limits[r] >= 0 || limits[r] == LIMIT_UNKNOWN
  }

  const CORES := "cpu"
  const MEMORY := "memory"

  /** Cluster totals; the count of GPUs by type may be unavailable. */
  datatype Totals = Totals(cores: int, memory: int, gpus: Option<map<string, int>>)

  predicate Supported(isGpu: string -> bool, r: string) {
    r == CORES || r == MEMORY || isGpu(r)
  }

  function TotalOf(totals: Totals, r: string): int
    requires r == CORES || r == MEMORY || totals.gpus.Some?
  {
    if r == CORES then totals.cores
    else if r == MEMORY then totals.memory
    else if r in totals.gpus.value then totals.gpus.value[r] else 0
  }

  predicate TotalUnknown(totals: Totals, r: string) {
    r != CORES && r != MEMORY && totals.gpus.None?
  }

  /** A limit for each supported resource with a configured minimum: what the total is above it, or unknown. */
  ghost predicate AreLeft(limits: Limits, resources: seq<string>, min: string -> int, isGpu: string -> bool,
                          totals: Totals)
  {
    && (forall r :: r in limits <==> r in resources && min(r) > 0 && Supported(isGpu, r))
    && (forall r :: r in limits ==>
         limits[r] == if TotalUnknown(totals, r) then LIMIT_UNKNOWN else ComputeAboveMin(TotalOf(totals, r), min(r)))
  }

  /** What may still be removed of each resource with a configured minimum; no entry means no limit. */
  method ComputeResourcesLeftLimits(resources: seq<string>, min: string -> int, isGpu: string -> bool, totals: Totals)
    returns (limits: Limits)
    ensures AreLeft(limits, resources, min, isGpu, totals) && LimitsSane(limits)
  {
    limits := map[];
    for k := 0 to |resources|
      invariant forall r :: r in limits <==> r in resources[..k] && min(r) > 0 && Supported(isGpu, r)
      invariant forall r :: r in limits ==>
                  limits[r] == if TotalUnknown(totals, r) then LIMIT_UNKNOWN
                    else ComputeAboveMin(TotalOf(totals, r), min(r))
    {
      var resource := resources[k];
      assert resources[..k + 1] == resources[..k] + [resource];
      if min(resource) > 0 {
        if resource == CORES {
          limits := limits[resource := ComputeAboveMin(totals.cores, min(resource))];
        } else if resource == MEMORY {
          limits := limits[resource := ComputeAboveMin(totals.memory, min(resource))];
        } else if isGpu(resource) {
          if totals.gpus.None? {
            limits := limits[resource := LIMIT_UNKNOWN];
          } else {
            limits := limits[resource := ComputeAboveMin(TotalOf(totals, resource), min(resource))];
          }
        }
      }
    }
    assert resources[..|resources|] == resources;
  }

  predicate Exceeds(limits: Limits, delta: Delta, r: string) {
    r in delta && r in limits && delta[r] > 0 && (limits[r] == LIMIT_UNKNOWN || delta[r] > limits[r])
  }

  function Decremented(limits: Limits, delta: Delta): Limits {
    map r | r in limits :: if r in delta then limits[r] - delta[r] else limits[r]
  }

  /** The resources of which `delta` takes more than is left. */
  method CheckDeltaWithinLimits(limits: Limits, delta: Delta) returns (exceeded: set<string>)
    ensures forall r :: r in exceeded <==> Exceeds(limits, delta, r)
  {
    exceeded := {};
    var todo := delta.Keys;
    while todo != {}
      invariant todo <= delta.Keys
      invariant forall r :: r in exceeded <==> Exceeds(limits, delta, r) && r !in todo
    {
      var r :| r in todo;
      if r in limits && delta[r] > 0 && (limits[r] == LIMIT_UNKNOWN || delta[r] > limits[r]) {
        exceeded := exceeded + {r};
      }
      todo := todo - {r};
    }
  }

  /** Takes `delta` off the limits, or nothing at all if some resource would be exceeded. */
  method TryDecrementLimitsByDelta(limits: Limits, delta: Delta) returns (exceeded: set<string>, left: Limits)
    ensures forall r :: r in exceeded <==> Exceeds(limits, delta, r)
    ensures left == if exceeded == {} then Decremented(limits, delta) else limits
  {
    exceeded := CheckDeltaWithinLimits(limits, delta);
    left := limits;
    if exceeded == {} {
      var todo := delta.Keys;
      while todo != {}
        invariant todo <= delta.Keys
        invariant left.Keys == limits.Keys
        invariant forall r :: r in left ==> left[r] == if r in delta && r !in todo then limits[r] - delta[r]
                  else limits[r]
      {
        var r :| r in todo;
        if r in left {
          left := left[r := left[r] - delta[r]];
        }
        todo := todo - {r};
      }
    }
  }

  // ----- the bulk deletion

  /**
   * The provider's answers: the group of a node, the sizes of a group, and the resources that a
   * node's deletion frees. What cannot be read is missing.
   */
  datatype Provider = Provider(groupOf: string -> Option<string>, targetSize: string -> Option<int>,
                               minSize: string -> int, delta: string -> Option<Delta>)

  /** How many nodes each consulted group may still lose, what is left of the limits, and the nodes chosen. */
  datatype Choice = Choice(available: map<string, int>, left: Limits, chosen: seq<string>)

  function Spare(p: Provider, g: string): int
    requires p.targetSize(g).Some?
  {
    if p.targetSize(g).value - p.minSize(g) < 0 then 0 else p.targetSize(g).value - p.minSize(g)
  }

  function Available(p: Provider, c: Choice, g: string): int
    requires p.targetSize(g).Some?
  {
    if g in c.available then c.available[g] else Spare(p, g)
  }

  /** The node's group is known, and so is its size if that was not read before. */
  predicate Sized(p: Provider, c: Choice, node: string) {
    var g := p.groupOf(node);
    g.Some? && (g.value in c.available || p.targetSize(g.value).Some?)
  }

  predicate WithinLimits(limits: Limits, delta: Delta) {
    forall r :: r in delta ==> !Exceeds(limits, delta, r)
  }

  /** One empty node: chosen if its group can spare it and no limit is exceeded. */
  function Consider(p: Provider, c: Choice, node: string): Choice {
    if !Sized(p, c, node) then c
    else
      var g := p.groupOf(node).value;
      var available := if g in c.available then c.available[g] else Spare(p, g);
      var noted := c.(available := c.available[g := available]);
      if available > 0 && p.delta(node).Some? && WithinLimits(c.left, p.delta(node).value)
      then Choice(c.available[g := available - 1], Decremented(c.left, p.delta(node).value), c.chosen + [node])
      else noted
  }

  function ConsiderAll(p: Provider, limits: Limits, nodes: seq<string>): Choice {
    if nodes == [] then Choice(map[], limits, [])
    else Consider(p, ConsiderAll(p, limits, nodes[..|nodes| - 1]), nodes[|nodes| - 1])
  }

  /** The empty nodes to delete together, at most `maxEmptyBulkDelete` of them. */
  method GetEmptyNodes(emptyNodes: seq<string>, maxEmptyBulkDelete: nat, limits: Limits, p: Provider)
    returns (result: seq<string>)
    ensures result == Bulk(p, limits, emptyNodes, maxEmptyBulkDelete)
  {
    var availabilityMap: map<string, int> := map[];
    var limitsCopy := limits;
    result := [];
    for k := 0 to |emptyNodes|
      invariant Choice(availabilityMap, limitsCopy, result) == ConsiderAll(p, limits, emptyNodes[..k])
    {
      assert emptyNodes[..k + 1][..k] == emptyNodes[..k];
      availabilityMap, limitsCopy, result := ConsiderNode(emptyNodes[k], availabilityMap, limitsCopy, result, p);
    }
    assert emptyNodes[..|emptyNodes|] == emptyNodes;
    var limit := if |result| < maxEmptyBulkDelete then |result| else maxEmptyBulkDelete;
    result := result[..limit];
  }

  /** One round of the loop over the empty nodes. */
  method ConsiderNode(node: string, availabilityMap: map<string, int>, limits: Limits, chosen: seq<string>, p: Provider)
    returns (availability: map<string, int>, left: Limits, result: seq<string>)
    ensures Choice(availability, left, result) == Consider(p, Choice(availabilityMap, limits, chosen), node)
  {
    availability, left, result := availabilityMap, limits, chosen;
    var nodeGroup := p.groupOf(node);
    if nodeGroup.None? {
      return;
    }
    var g := nodeGroup.value;
    var available;
    if g in availabilityMap {
      available := availabilityMap[g];
    } else {
      var size := p.targetSize(g);
      if size.None? {
        return;
      }
      available := size.value - p.minSize(g);
      if available < 0 {
        available := 0;
      }
    }
    availability := availability[g := available];
    if available > 0 {
      var delta := p.delta(node);
      if delta.None? {
        return;
      }
      var exceeded;
      exceeded, left := TryDecrementLimitsByDelta(left, delta.value);
      assert exceeded == {} <==> WithinLimits(limits, delta.value);
      if exceeded != {} {
        return;
      }
      availability := availability[g := available - 1];
      result := result + [node];
    }
  }

  // ----- what the choice respects

  function CountIn(p: Provider, nodes: seq<string>, g: string): nat {
    if nodes == [] then 0
    else CountIn(p, nodes[..|nodes| - 1], g) + (if p.groupOf(nodes[|nodes| - 1]) == Some(g) then 1 else 0)
  }

  /** How much of resource `r` the nodes take with them. */
  function Taken(p: Provider, nodes: seq<string>, r: string): int {
    if nodes == [] then 0
    else Taken(p, nodes[..|nodes| - 1], r) + Share(p, nodes[|nodes| - 1], r)
  }

  function Share(p: Provider, node: string, r: string): int {
    var delta := p.delta(node);
    if delta.Some? && r in delta.value then delta.value[r] else 0
  }

  ghost predicate NonNegative(p: Provider) {
    forall node, r :: Share(p, node, r) >= 0
  }

  predicate GroupRespected(p: Provider, c: Choice, g: string) {
    && (g in c.available ==> p.targetSize(g).Some? && 0 <= c.available[g] == Spare(p, g) - CountIn(p, c.chosen, g))
    && (g !in c.available ==> CountIn(p, c.chosen, g) == 0)
  }

  predicate ResourceRespected(p: Provider, limits: Limits, c: Choice, r: string) {
    && (r in c.left <==> r in limits)
    && (r in limits ==> c.left[r] == limits[r] - Taken(p, c.chosen, r))
    && (r in limits && limits[r] == LIMIT_UNKNOWN ==> Taken(p, c.chosen, r) == 0)
    && (r in limits && limits[r] != LIMIT_UNKNOWN ==> c.left[r] >= 0)
  }

  lemma {:induction false} GroupsRespected(p: Provider, limits: Limits, nodes: seq<string>, g: string)
    ensures GroupRespected(p, ConsiderAll(p, limits, nodes), g)
  {
    if nodes != [] {
      var n := |nodes| - 1;
      var before := ConsiderAll(p, limits, nodes[..n]);
      GroupsRespected(p, limits, nodes[..n], g);
      assert (before.chosen + [nodes[n]])[..|before.chosen|] == before.chosen;
    }
  }

  lemma {:induction false} ResourcesRespected(p: Provider, limits: Limits, nodes: seq<string>, r: string)
    requires NonNegative(p) && LimitsSane(limits)
    ensures ResourceRespected(p, limits, ConsiderAll(p, limits, nodes), r)
  {
    if nodes != [] {
      var n := |nodes| - 1;
      var before := ConsiderAll(p, limits, nodes[..n]);
      ResourcesRespected(p, limits, nodes[..n], r);
      assert (before.chosen + [nodes[n]])[..|before.chosen|] == before.chosen;
      assert Share(p, nodes[n], r) >= 0;
    }
  }

  lemma {:induction false} PrefixTakesLess(p: Provider, nodes: seq<string>, k: nat, g: string, r: string)
    requires NonNegative(p) && k <= |nodes|
    ensures CountIn(p, nodes[..k], g) <= CountIn(p, nodes, g)
    ensures 0 <= Taken(p, nodes[..k], r) <= Taken(p, nodes, r)
  {
    if nodes == [] {
      assert nodes[..k] == [];
    } else {
      var n := |nodes| - 1;
      assert Share(p, nodes[n], r) >= 0;
      if k == |nodes| {
        PrefixTakesLess(p, nodes[..n], n, g, r);
        assert nodes[..k] == nodes && nodes[..n][..n] == nodes[..n];
      } else {
        PrefixTakesLess(p, nodes[..n], k, g, r);
        assert nodes[..n][..k] == nodes[..k];
      }
    }
  }

  /** The nodes that a bulk deletion returns. */
  function Bulk(p: Provider, limits: Limits, nodes: seq<string>, max: nat): seq<string> {
    var chosen := ConsiderAll(p, limits, nodes).chosen;
    if |chosen| < max then chosen else chosen[..max]
  }

  /**
   * A bulk deletion respects everything at once: the number of nodes, what each group can spare,
   * every known limit, and it takes nothing of a resource whose limit is unknown.
   */
  lemma BulkRespectsAll(p: Provider, limits: Limits, nodes: seq<string>, max: nat, g: string, r: string)
    requires NonNegative(p) && LimitsSane(limits)
    ensures |Bulk(p, limits, nodes, max)| <= max
    ensures CountIn(p, Bulk(p, limits, nodes, max), g) <= if p.targetSize(g).Some? then Spare(p, g) else 0
    ensures r in limits && limits[r] != LIMIT_UNKNOWN ==> Taken(p, Bulk(p, limits, nodes, max), r) <= limits[r]
    ensures r in limits && limits[r] == LIMIT_UNKNOWN ==> Taken(p, Bulk(p, limits, nodes, max), r) == 0
  {
    var chosen := ConsiderAll(p, limits, nodes).chosen;
    GroupsRespected(p, limits, nodes, g);
    ResourcesRespected(p, limits, nodes, r);
    PrefixTakesLess(p, chosen, |Bulk(p, limits, nodes, max)|, g, r);
    assert chosen[..|chosen|] == chosen;
  }

  /** With the limit left above a configured minimum, the cluster keeps that minimum, or all it had. */
  lemma BulkKeepsMinimum(p: Provider, limits: Limits, nodes: seq<string>, max: nat, r: string, total: int, min: int)
    requires NonNegative(p) && LimitsSane(limits)
    requires r in limits && limits[r] == ComputeAboveMin(total, min)
    ensures total - Taken(p, Bulk(p, limits, nodes, max), r) >= if total < min then total else min
  {
    BulkRespectsAll(p, limits, nodes, max, "", r);
  }

  /** Each node is chosen at most as often as it was offered. */
  lemma {:induction false} ChosenAreOffered(p: Provider, limits: Limits, nodes: seq<string>)
    ensures multiset(ConsiderAll(p, limits, nodes).chosen) <= multiset(nodes)
  {
    if nodes != [] {
      var n := |nodes| - 1;
      ChosenAreOffered(p, limits, nodes[..n]);
      assert nodes == nodes[..n] + [nodes[n]];
    }
  }

  // ----- and it is maximal

  /** Nothing more can be taken with `node`: its group or sizes are unknown or used up, or some limit is. */
  ghost predicate Exhausted(p: Provider, c: Choice, node: string) {
    var g := p.groupOf(node);
    || g.None? || p.targetSize(g.value).None? || p.delta(node).None?
    || Available(p, c, g.value) == 0
    || !WithinLimits(c.left, p.delta(node).value)
  }

  lemma ConsiderOnlyTakes(p: Provider, limits: Limits, nodes: seq<string>, next: string, node: string)
    requires NonNegative(p) && LimitsSane(limits)
    requires Exhausted(p, ConsiderAll(p, limits, nodes), node)
    ensures Exhausted(p, Consider(p, ConsiderAll(p, limits, nodes), next), node)
  {
    var c := ConsiderAll(p, limits, nodes);
    var c' := Consider(p, c, next);
    if p.groupOf(node).Some? && p.targetSize(p.groupOf(node).value).Some? && p.delta(node).Some? {
      GroupsRespected(p, limits, nodes, p.groupOf(node).value);
      if !WithinLimits(c.left, p.delta(node).value) {
        var r :| r in p.delta(node).value && Exceeds(c.left, p.delta(node).value, r);
        ResourcesRespected(p, limits, nodes, r);
        assert Share(p, next, r) >= 0;
        assert Exceeds(c'.left, p.delta(node).value, r);
      }
    }
  }

  /** Every empty node that was passed over could not be taken in addition to the chosen ones. */
  lemma {:induction false} ChoiceIsMaximal(p: Provider, limits: Limits, nodes: seq<string>, node: string)
    requires NonNegative(p) && LimitsSane(limits)
    requires node in nodes && node !in ConsiderAll(p, limits, nodes).chosen
    ensures Exhausted(p, ConsiderAll(p, limits, nodes), node)
  {
    var n := |nodes| - 1;
    assert nodes == nodes[..n] + [nodes[n]];
    if node == nodes[n] {
      if p.groupOf(node).Some? {
        GroupsRespected(p, limits, nodes[..n], p.groupOf(node).value);
      }
    } else {
      ChoiceIsMaximal(p, limits, nodes[..n], node);
      ConsiderOnlyTakes(p, limits, nodes[..n], nodes[n], node);
    }
  }
}
