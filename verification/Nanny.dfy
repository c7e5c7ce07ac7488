/** The addon resizer: resources that grow with the number of nodes, kept within a band (addon-resizer/nanny). */
module Nanny {
  import opened Wrappers

  datatype ResourceName = Cpu | Memory | Storage

  /** An estimated resource: what it takes at least, and what each node adds. */
  datatype Resource = Resource(base: real, extraPerNode: real, name: ResourceName)

  type ResourceList = map<ResourceName, real>

  datatype Range = Range(lower: ResourceList, upper: ResourceList)

  datatype EstimatorResult = EstimatorResult(recommended: Range, acceptable: Range)

  datatype Estimator = Estimator(resources: seq<Resource>, acceptanceOffset: int, recommendationOffset: int)

  const TWO_TO_64: int := 0x1_0000_0000_0000_0000
  const TWO_TO_63: int := 0x8000_0000_0000_0000

  // ----- estimation (nanny/estimator.go)

  function FloorPercent(nodeCount: nat, offset: int): int {
    (nodeCount * offset) / 100
  }

  function CeilPercent(nodeCount: nat, offset: int): int {
    -((-(nodeCount * offset)) / 100)
  }

  /** The node count moved by a share of it; as an unsigned number, it wraps around below zero. */
  function OffsetNodeCount(nodeCount: nat, moved: int): nat {
    (nodeCount + moved) % TWO_TO_64
  }

  function MinNodes(nodeCount: nat, offset: int): nat {
    OffsetNodeCount(nodeCount, FloorPercent(nodeCount, -offset))
  }

  function MaxNodes(nodeCount: nat, offset: int): nat {
    OffsetNodeCount(nodeCount, CeilPercent(nodeCount, offset))
  }

  function Requirement(r: Resource, nodes: nat): real {
    r.base + r.extraPerNode * nodes as real
  }

  /** The last entry for a name counts. */
  function Requirements(nodes: nat, resources: seq<Resource>): ResourceList {
    if resources == [] then map[]
    else Requirements(nodes,
                      resources[..|resources| - 1])[resources[|resources| - 1].name :=
                        Requirement(resources[|resources| - 1], nodes)]
  }

  method CalculateResources(nodes: nat, resources: seq<Resource>) returns (resourceList: ResourceList)
    ensures resourceList == Requirements(nodes, resources)
  {
    resourceList := map[];
    for k := 0 to |resources|
      invariant resourceList == Requirements(nodes, resources[..k])
    {
      assert resources[..k + 1][..k] == resources[..k];
      var overhead := resources[k].extraPerNode * nodes as real;
      var newRes := resources[k].base + overhead;
      assert newRes == Requirement(resources[k], nodes);
      resourceList := resourceList[resources[k].name := newRes];
    }
    assert resources[..|resources|] == resources;
  }

  function RangeFor(nodes: nat, offset: int, resources: seq<Resource>): Range {
    Range(Requirements(MinNodes(nodes, offset), resources), Requirements(MaxNodes(nodes, offset), resources))
  }

  function ScaleWithNodes(e: Estimator, nodes: nat): EstimatorResult {
    EstimatorResult(RangeFor(nodes, e.recommendationOffset, e.resources),
                    RangeFor(nodes, e.acceptanceOffset, e.resources))
  }

  // ----- the decision (nanny/nanny_lib.go)

  /** What to apply because of one resource of one list, if anything. */
  function CheckResource(est: EstimatorResult, actual: ResourceList, res: ResourceName): Option<ResourceList> {
    var val, expMin, expMax := Get(actual, res), Get(est.acceptable.lower, res), Get(est.acceptable.upper, res);
    if val.Some? != expMin.Some? || val.Some? != expMax.Some? then Some(est.recommended.lower)
    else if val.None? then None
    else if val.value < expMin.value then Some(est.recommended.lower)
    else if val.value > expMax.value then Some(est.recommended.upper)
    else None
  }

  const CHECKED := [Cpu, Memory, Storage]

  /** The list to apply as limits and requests, if some resource is out of its range. */
  method ShouldOverwriteResources(est: EstimatorResult, limits: ResourceList, reqs: ResourceList)
    returns (overwrite: Option<ResourceList>)
    ensures overwrite == Overwrite(est, limits, reqs)
  {
    var lists := [limits, reqs];
    for i := 0 to 2
      invariant Overwrite(est, limits, reqs) == FirstOf(est, lists[i..])
    {
      assert lists[i..][1..] == lists[i + 1..];
      for k := 0 to |CHECKED|
        invariant FirstIn(est, lists[i], CHECKED) == FirstIn(est, lists[i], CHECKED[k..])
      {
        assert CHECKED[k..][1..] == CHECKED[k + 1..];
        var newReqs := CheckResource(est, lists[i], CHECKED[k]);
        if newReqs.Some? {
          return newReqs;
        }
      }
    }
    return None;
  }

  /** The first objection to a list. */
  function FirstIn(est: EstimatorResult, actual: ResourceList, names: seq<ResourceName>): Option<ResourceList> {
    if names == [] then None
    else if CheckResource(est, actual, names[0]).Some? then CheckResource(est, actual, names[0])
    else FirstIn(est, actual, names[1..])
  }

  /** The first objection to one of the lists. */
  function FirstOf(est: EstimatorResult, lists: seq<ResourceList>): Option<ResourceList> {
    if lists == [] then None
    else if FirstIn(est, lists[0], CHECKED).Some? then FirstIn(est, lists[0], CHECKED)
    else FirstOf(est, lists[1..])
  }

  function Overwrite(est: EstimatorResult, limits: ResourceList, reqs: ResourceList): Option<ResourceList> {
    FirstOf(est, [limits, reqs])
  }

  /** A list has exactly the estimated resources, each within its acceptable range. */
  ghost predicate Acceptable(est: EstimatorResult, actual: ResourceList) {
    && actual.Keys == est.acceptable.lower.Keys == est.acceptable.upper.Keys
    && forall r :: r in actual ==> est.acceptable.lower[r] <= actual[r] <= est.acceptable.upper[r]
  }

  /** Nothing is overwritten exactly if limits and requests are both acceptable. */
  lemma NothingToDoIff(est: EstimatorResult, limits: ResourceList, reqs: ResourceList)
    ensures Overwrite(est, limits, reqs).None? <==> Acceptable(est, limits) && Acceptable(est, reqs)
  {
    AcceptableIff(est, limits);
    AcceptableIff(est, reqs);
    assert [limits, reqs][1..] == [reqs];
    assert [reqs][1..] == [];
    assert FirstOf(est, [reqs]).None? <==> FirstIn(est, reqs, CHECKED).None?;
  }

  lemma CheckIff(est: EstimatorResult, actual: ResourceList, r: ResourceName)
    ensures CheckResource(est, actual, r).None? <==>
            && (r in actual <==> r in est.acceptable.lower) && (r in actual <==> r in est.acceptable.upper)
            && (r in actual && r in est.acceptable.lower && r in est.acceptable.upper
                ==> est.acceptable.lower[r] <= actual[r] <= est.acceptable.upper[r])
  {
  }

  lemma {:induction false} FirstInIff(est: EstimatorResult, actual: ResourceList, names: seq<ResourceName>)
    ensures FirstIn(est, actual, names).None? <==> forall r :: r in names ==> CheckResource(est, actual, r).None?
  {
    if names != [] {
      FirstInIff(est, actual, names[1..]);
      assert names == [names[0]] + names[1..];
    }
  }

  lemma EveryNameIsChecked(r: ResourceName)
    ensures r in CHECKED
  {
    match r
    case Cpu => assert CHECKED[0] == r;
    case Memory => assert CHECKED[1] == r;
    case Storage => assert CHECKED[2] == r;
  }

  lemma AcceptableIff(est: EstimatorResult, actual: ResourceList)
    ensures Acceptable(est, actual) <==> FirstIn(est, actual, CHECKED).None?
  {
    FirstInIff(est, actual, CHECKED);
    forall r ensures CheckResource(est, actual, r).None? <==>
                     && (r in actual <==> r in est.acceptable.lower) && (r in actual <==> r in est.acceptable.upper)
                     && (r in actual && r in est.acceptable.lower && r in est.acceptable.upper
                         ==> est.acceptable.lower[r] <= actual[r] <= est.acceptable.upper[r])
      ensures r in CHECKED
    {
      CheckIff(est, actual, r);
      EveryNameIsChecked(r);
    }
    if FirstIn(est, actual, CHECKED).None? {
      forall r ensures CheckResource(est, actual, r).None? {}
      assert actual.Keys == est.acceptable.lower.Keys && actual.Keys == est.acceptable.upper.Keys;
    }
  }

  lemma {:induction false} FirstInIsRecommended(est: EstimatorResult, actual: ResourceList, names: seq<ResourceName>)
    ensures FirstIn(est, actual, names).Some? ==>
              FirstIn(est, actual, names).value == est.recommended.lower
                || FirstIn(est, actual, names).value == est.recommended.upper
  {
    if names != [] {
      FirstInIsRecommended(est, actual, names[1..]);
    }
  }

  lemma {:induction false} FirstOfIsRecommended(est: EstimatorResult, lists: seq<ResourceList>)
    ensures FirstOf(est, lists).Some? ==>
              FirstOf(est, lists).value == est.recommended.lower || FirstOf(est, lists).value == est.recommended.upper
  {
    if lists != [] {
      FirstInIsRecommended(est, lists[0], CHECKED);
      FirstOfIsRecommended(est, lists[1..]);
    }
  }

  // ----- the recommended range lies in the acceptable one

  predicate Sensible(e: Estimator) {
    && 0 <= e.recommendationOffset <= e.acceptanceOffset <= 100
    && forall k :: 0 <= k < |e.resources| ==> e.resources[k].extraPerNode >= 0.0
  }

  lemma Products(n: nat, a: int, b: int)
    requires a <= b
    ensures n * a <= n * b
  {
  }

  lemma SharesNest(n: nat, p: int, q: int)
    requires 0 <= p <= q <= n * 100
    ensures 0 <= n + (-q) / 100 <= n + (-p) / 100 <= n <= n - (-p) / 100 <= n - (-q) / 100 <= 2 * n
  {
  }

  lemma NoWrap(x: int)
    requires 0 <= x < TWO_TO_64
    ensures x % TWO_TO_64 == x
  {
  }

  lemma OffsetShare(n: nat, a: int)
    requires n < TWO_TO_63 && 0 <= a <= 100
    ensures MinNodes(n, a) == n + (-(n * a)) / 100 && MaxNodes(n, a) == n - (-(n * a)) / 100
  {
    Products(n, 0, a);
    Products(n, a, 100);
    SharesNest(n, n * a, n * a);
    assert n * -a == -(n * a);
    NoWrap(n + (-(n * a)) / 100);
    NoWrap(n - (-(n * a)) / 100);
  }

  /** Larger offsets move further, and never below zero. */
  lemma OffsetsNest(n: nat, a: int, b: int)
    requires n < TWO_TO_63 && 0 <= a <= b <= 100
    ensures MinNodes(n, b) <= MinNodes(n, a) <= n <= MaxNodes(n, a) <= MaxNodes(n, b)
  {
    Products(n, a, b);
    Products(n, 0, a);
    Products(n, b, 100);
    OffsetShare(n, a);
    OffsetShare(n, b);
    SharesNest(n, n * a, n * b);
  }

  lemma {:induction false} MoreNodesNeedMore(nodes: nat, more: nat, resources: seq<Resource>, r: ResourceName)
    requires nodes <= more && forall k :: 0 <= k < |resources| ==> resources[k].extraPerNode >= 0.0
    ensures Requirements(nodes, resources).Keys == Requirements(more, resources).Keys
    ensures r in Requirements(nodes, resources) ==>
              Requirements(nodes, resources)[r] <= Requirements(more, resources)[r]
  {
    if resources != [] {
      var last := resources[|resources| - 1];
      MoreNodesNeedMore(nodes, more, resources[..|resources| - 1], r);
      RequirementGrows(last.extraPerNode, nodes, more);
    }
  }

  lemma RequirementGrows(perNode: real, nodes: nat, more: nat)
    requires perNode >= 0.0 && nodes <= more
    ensures perNode * nodes as real <= perNode * more as real
  {
  }

  /** For every node count, what is recommended is acceptable. */
  lemma RecommendedIsAcceptable(e: Estimator, n: nat)
    requires Sensible(e) && n < TWO_TO_63
    ensures Acceptable(ScaleWithNodes(e, n), ScaleWithNodes(e, n).recommended.lower)
    ensures Acceptable(ScaleWithNodes(e, n), ScaleWithNodes(e, n).recommended.upper)
  {
    var a, b := e.recommendationOffset, e.acceptanceOffset;
    OffsetsNest(n, a, b);
    forall r: ResourceName
      ensures Between(e.resources, MinNodes(n, b), MinNodes(n, a), MaxNodes(n, a), MaxNodes(n, b), r)
    {
      GrowsBetween(e.resources, MinNodes(n, b), MinNodes(n, a), MaxNodes(n, a), MaxNodes(n, b), r);
    }
    BetweenIsAcceptable(ScaleWithNodes(e, n), e.resources, MinNodes(n, b), MinNodes(n, a), MaxNodes(n, a),
                        MaxNodes(n, b));
  }

  lemma GrowsBetween(resources: seq<Resource>, n1: nat, n2: nat, n3: nat, n4: nat, r: ResourceName)
    requires n1 <= n2 <= n3 <= n4 && forall k :: 0 <= k < |resources| ==> resources[k].extraPerNode >= 0.0
    ensures Between(resources, n1, n2, n3, n4, r)
  {
    MoreNodesNeedMore(n1, n2, resources, r);
    MoreNodesNeedMore(n2, n3, resources, r);
    MoreNodesNeedMore(n3, n4, resources, r);
  }

  lemma BetweenIsAcceptable(est: EstimatorResult, resources: seq<Resource>, n1: nat, n2: nat, n3: nat, n4: nat)
    requires est.acceptable == Range(Requirements(n1, resources), Requirements(n4, resources))
    requires est.recommended == Range(Requirements(n2, resources), Requirements(n3, resources))
    requires forall r: ResourceName :: Between(resources, n1, n2, n3, n4, r)
    ensures Acceptable(est, est.recommended.lower) && Acceptable(est, est.recommended.upper)
  {
    assert Between(resources, n1, n2, n3, n4, Cpu);
    forall r | r in est.recommended.lower
      ensures est.acceptable.lower[r] <= est.recommended.lower[r] <= est.recommended.upper[r] <= est.acceptable.upper[r]
    {
      assert Between(resources, n1, n2, n3, n4, r);
    }
  }

  /** The requirements for growing node counts have the same resources, and grow. */
  ghost predicate Between(resources: seq<Resource>, n1: nat, n2: nat, n3: nat, n4: nat, r: ResourceName) {
    var q1, q2, q3, q4 := Requirements(n1, resources), Requirements(n2, resources), Requirements(n3, resources),
                          Requirements(n4, resources);
    && q1.Keys == q2.Keys == q3.Keys == q4.Keys
    && (r in q1 ==> q1[r] <= q2[r] <= q3[r] <= q4[r])
  }

  // ----- polling

  class Deployment {
    var limits: ResourceList
    var requests: ResourceList

    constructor (limits: ResourceList, requests: ResourceList)
      ensures this.limits == limits && this.requests == requests
    {
      this.limits, this.requests := limits, requests;
    }
  }

  /** The server's answers during one poll; what it does not answer is missing. */
  datatype Poll = Poll(nodes: Option<nat>, readable: bool, accepts: bool)

  type Actual = (ResourceList, ResourceList)

  /** The update that a poll asks for. */
  function Update(e: Estimator, actual: Actual, p: Poll): Option<ResourceList> {
    if p.nodes.None? || !p.readable then None else Overwrite(ScaleWithNodes(e, p.nodes.value), actual.0, actual.1)
  }

  function AfterPoll(e: Estimator, actual: Actual, p: Poll): Actual {
    var update := Update(e, actual, p);
    if update.Some? && p.accepts then (update.value, update.value) else actual
  }

  method PollOnce(e: Estimator, d: Deployment, p: Poll)
    modifies d
    ensures (d.limits, d.requests) == AfterPoll(e, (old(d.limits), old(d.requests)), p)
  {
    if p.nodes.None? {
      return;
    }
    if !p.readable {
      return;
    }
    var estimation := ScaleWithNodes(e, p.nodes.value);
    var overwrite := ShouldOverwriteResources(estimation, d.limits, d.requests);
    if overwrite.None? {
      return;
    }
    if p.accepts {
      d.limits, d.requests := overwrite.value, overwrite.value;
    }
  }

  function AfterPolls(e: Estimator, actual: Actual, polls: seq<Poll>): Actual {
    if polls == [] then actual else AfterPoll(e, AfterPolls(e, actual, polls[..|polls| - 1]), polls[|polls| - 1])
  }

  /** The number of polls that changed the deployment. */
  function Updates(e: Estimator, actual: Actual, polls: seq<Poll>): nat {
    if polls == [] then 0
    else
      var k := |polls| - 1;
      Updates(e, actual, polls[..k])
        + (if polls[k].accepts && Update(e, AfterPolls(e, actual, polls[..k]), polls[k]).Some? then 1 else 0)
  }

  /** An update leaves nothing to do at the same node count. */
  lemma UpdateSettles(e: Estimator, n: nat, limits: ResourceList, reqs: ResourceList)
    requires Sensible(e) && n < TWO_TO_63
    ensures
      var update := Overwrite(ScaleWithNodes(e, n), limits, reqs);
      update.Some? ==> Overwrite(ScaleWithNodes(e, n), update.value, update.value).None?
  {
    var est := ScaleWithNodes(e, n);
    var update := Overwrite(est, limits, reqs);
    RecommendedIsAcceptable(e, n);
    if update.Some? {
      FirstOfIsRecommended(est, [limits, reqs]);
      NothingToDoIff(est, update.value, update.value);
    }
  }

  /** Whatever may be applied at this node count is acceptable at it. */
  ghost predicate Settles(e: Estimator, n: nat) {
    var est := ScaleWithNodes(e, n);
    Acceptable(est, est.recommended.lower) && Acceptable(est, est.recommended.upper)
  }

  /** Every poll is answered with the same node count, if at all. */
  predicate Constant(polls: seq<Poll>, n: nat) {
    forall k :: 0 <= k < |polls| ==> polls[k].nodes.None? || polls[k].nodes == Some(n)
  }

  lemma {:induction false} SettlesInOne(e: Estimator, n: nat, actual: Actual, polls: seq<Poll>)
    requires Settles(e, n)
    requires Constant(polls, n)
    ensures Updates(e, actual, polls) <= 1
    ensures Updates(e, actual, polls) == 0 ==> AfterPolls(e, actual, polls) == actual
    ensures
      var now := AfterPolls(e, actual, polls);
      Updates(e, actual, polls) == 1 ==> Overwrite(ScaleWithNodes(e, n), now.0, now.1).None?
  {
    if polls != [] {
      var k := |polls| - 1;
      SettlesInOne(e, n, actual, polls[..k]);
      var est, before := ScaleWithNodes(e, n), AfterPolls(e, actual, polls[..k]);
      var update := Overwrite(est, before.0, before.1);
      FirstOfIsRecommended(est, [before.0, before.1]);
      if update.Some? {
        NothingToDoIff(est, update.value, update.value);
      }
    }
  }

  /** However often it polls, at a constant node count the resizer changes the deployment at most once. */
  lemma NoFlapping(e: Estimator, n: nat, actual: Actual, polls: seq<Poll>)
    requires Sensible(e) && n < TWO_TO_63
    requires Constant(polls, n)
    ensures Updates(e, actual, polls) <= 1
    ensures Updates(e, actual, polls) == 0 ==> AfterPolls(e, actual, polls) == actual
    ensures
      var now := AfterPolls(e, actual, polls);
      Updates(e, actual, polls) == 1 ==> Overwrite(ScaleWithNodes(e, n), now.0, now.1).None?
  {
    RecommendedIsAcceptable(e, n);
    SettlesInOne(e, n, actual, polls);
  }

  // ----- exactly when an update always settles

  /** The entry that counts for a name. */
  function Entry(resources: seq<Resource>, r: ResourceName): Option<Resource> {
    if resources == [] then None
    else if resources[|resources| - 1].name == r then Some(resources[|resources| - 1])
    else Entry(resources[..|resources| - 1], r)
  }

  lemma {:induction false} RequirementOfEntry(nodes: nat, resources: seq<Resource>, r: ResourceName)
    ensures r in Requirements(nodes, resources) <==> Entry(resources, r).Some?
    ensures r in Requirements(nodes, resources) ==>
              Requirements(nodes, resources)[r] == Requirement(Entry(resources, r).value, nodes)
  {
    if resources != [] {
      RequirementOfEntry(nodes, resources[..|resources| - 1], r);
    }
  }

  /** Some resource grows with the number of nodes. */
  predicate Grows(resources: seq<Resource>) {
    exists r :: Entry(resources, r).Some? && Entry(resources, r).value.extraPerNode > 0.0
  }

  predicate PercentOffsets(e: Estimator) {
    && 0 <= e.recommendationOffset <= 100 && 0 <= e.acceptanceOffset <= 100
    && forall k :: 0 <= k < |e.resources| ==> e.resources[k].extraPerNode >= 0.0
  }

  lemma {:induction false} EntryIsListed(resources: seq<Resource>, r: ResourceName)
    requires Entry(resources, r).Some?
    ensures Entry(resources, r).value in resources
  {
    if resources[|resources| - 1].name != r {
      EntryIsListed(resources[..|resources| - 1], r);
    }
  }

  /** If nothing grows, all node counts need the same. */
  lemma NothingGrows(resources: seq<Resource>, nodes: nat, more: nat)
    requires !Grows(resources) && forall k :: 0 <= k < |resources| ==> resources[k].extraPerNode >= 0.0
    ensures Requirements(nodes, resources) == Requirements(more, resources)
  {
    forall r: ResourceName
      ensures r in Requirements(nodes, resources) <==> r in Requirements(more, resources)
      ensures r in Requirements(nodes, resources) ==>
                Requirements(nodes, resources)[r] == Requirements(more, resources)[r]
    {
      RequirementOfEntry(nodes, resources, r);
      RequirementOfEntry(more, resources, r);
      if Entry(resources, r).Some? {
        EntryIsListed(resources, r);
        assert Entry(resources, r).value.extraPerNode == 0.0;
      }
    }
  }

  lemma FewerOfHundred(wide: int, narrow: int)
    requires 0 <= narrow < wide <= 100
    ensures MinNodes(100, wide) < MinNodes(100, narrow)
  {
    OffsetShare(100, wide);
    OffsetShare(100, narrow);
  }

  lemma RequirementStrictlyGrows(entry: Resource, nodes: nat, more: nat)
    requires entry.extraPerNode > 0.0 && nodes < more
    ensures Requirement(entry, nodes) < Requirement(entry, more)
  {
    StrictlyMore(entry.extraPerNode, nodes, more);
  }

  lemma StrictlyMore(perNode: real, nodes: nat, more: nat)
    requires perNode > 0.0 && nodes < more
    ensures perNode * nodes as real < perNode * more as real
  {
  }

  /** A resource that grows is lower for fewer nodes, below what is acceptable. */
  lemma BelowAcceptable(est: EstimatorResult, resources: seq<Resource>, fewer: nat, more: nat, r: ResourceName)
    requires fewer < more && Entry(resources, r).Some? && Entry(resources, r).value.extraPerNode > 0.0
    requires est.recommended.lower == Requirements(fewer, resources)
             && est.acceptable.lower == Requirements(more, resources)
    ensures !Acceptable(est, est.recommended.lower)
  {
    var entry := Entry(resources, r).value;
    RequirementOfEntry(fewer, resources, r);
    RequirementOfEntry(more, resources, r);
    assert est.recommended.lower[r] == Requirement(entry, fewer) && est.acceptable.lower[r] == Requirement(entry, more);
    RequirementStrictlyGrows(entry, fewer, more);
  }

  /** With a wider recommendation and a resource that grows, a hundred nodes do not settle. */
  lemma WideIsUnsettled(e: Estimator)
    requires PercentOffsets(e) && e.recommendationOffset > e.acceptanceOffset && Grows(e.resources)
    ensures !Settles(e, 100)
  {
    var r :| Entry(e.resources, r).Some? && Entry(e.resources, r).value.extraPerNode > 0.0;
    FewerOfHundred(e.recommendationOffset, e.acceptanceOffset);
    BelowAcceptable(ScaleWithNodes(e, 100), e.resources, MinNodes(100, e.recommendationOffset),
                    MinNodes(100, e.acceptanceOffset), r);
  }

  /** What is objected to in a list that is nowhere above what is acceptable is that it is too low. */
  lemma {:induction false} OnlyTooLow(est: EstimatorResult, actual: ResourceList, names: seq<ResourceName>)
    requires actual.Keys == est.acceptable.lower.Keys == est.acceptable.upper.Keys
    requires forall r :: r in actual ==> actual[r] <= est.acceptable.upper[r]
    ensures FirstIn(est, actual, names) in {None, Some(est.recommended.lower)}
  {
    if names != [] {
      OnlyTooLow(est, actual, names[1..]);
    }
  }

  lemma {:induction false} OnlyTooHigh(est: EstimatorResult, actual: ResourceList, names: seq<ResourceName>)
    requires actual.Keys == est.acceptable.lower.Keys == est.acceptable.upper.Keys
    requires forall r :: r in actual ==> est.acceptable.lower[r] <= actual[r]
    ensures FirstIn(est, actual, names) in {None, Some(est.recommended.upper)}
  {
    if names != [] {
      OnlyTooHigh(est, actual, names[1..]);
    }
  }

  /** The recommended range encloses the acceptable one. */
  ghost predicate Encloses(est: EstimatorResult) {
    && est.recommended.lower.Keys == est.acceptable.lower.Keys == est.acceptable.upper.Keys ==
      est.recommended.upper.Keys
    && forall r :: r in est.recommended.lower ==>
         est.recommended.lower[r] <= est.acceptable.lower[r] <= est.acceptable.upper[r] <= est.recommended.upper[r]
  }

  lemma WideEncloses(est: EstimatorResult, resources: seq<Resource>, n1: nat, n2: nat, n3: nat, n4: nat)
    requires est.recommended == Range(Requirements(n1, resources), Requirements(n4, resources))
    requires est.acceptable == Range(Requirements(n2, resources), Requirements(n3, resources))
    requires forall r: ResourceName :: Between(resources, n1, n2, n3, n4, r)
    ensures Encloses(est)
  {
    assert Between(resources, n1, n2, n3, n4, Cpu);
    forall r | r in est.recommended.lower
      ensures est.recommended.lower[r] <= est.acceptable.lower[r] <= est.acceptable.upper[r] <= est.recommended.upper[r]
    {
      assert Between(resources, n1, n2, n3, n4, r);
    }
  }

  /** An end of an enclosing range that is not acceptable asks for itself. */
  lemma EndRepeats(est: EstimatorResult) returns (list: ResourceList)
    requires Encloses(est) && !(Acceptable(est, est.recommended.lower) && Acceptable(est, est.recommended.upper))
    ensures Overwrite(est, list, list) == Some(list)
  {
    if !Acceptable(est, est.recommended.lower) {
      list := est.recommended.lower;
      OnlyTooLow(est, list, CHECKED);
    } else {
      list := est.recommended.upper;
      OnlyTooHigh(est, list, CHECKED);
    }
    AcceptableIff(est, list);
    FirstListObjects(est, list);
  }

  lemma FirstListObjects(est: EstimatorResult, list: ResourceList)
    requires FirstIn(est, list, CHECKED).Some?
    ensures Overwrite(est, list, list) == FirstIn(est, list, CHECKED)
  {
  }

  /** Where updates do not settle, one end of the recommended range asks for itself. */
  lemma UnsettledRepeats(e: Estimator, n: nat) returns (list: ResourceList)
    requires PercentOffsets(e) && n < TWO_TO_63 && !Settles(e, n)
    ensures Overwrite(ScaleWithNodes(e, n), list, list) == Some(list)
  {
    var rec, acc := e.recommendationOffset, e.acceptanceOffset;
    if rec <= acc {
      RecommendedIsAcceptable(e, n);
    }
    OffsetsNest(n, acc, rec);
    forall r: ResourceName
      ensures Between(e.resources, MinNodes(n, rec), MinNodes(n, acc), MaxNodes(n, acc), MaxNodes(n, rec), r)
    {
      GrowsBetween(e.resources, MinNodes(n, rec), MinNodes(n, acc), MaxNodes(n, acc), MaxNodes(n, rec), r);
    }
    WideEncloses(ScaleWithNodes(e, n), e.resources, MinNodes(n, rec), MinNodes(n, acc), MaxNodes(n, acc),
                 MaxNodes(n, rec));
    list := EndRepeats(ScaleWithNodes(e, n));
  }

  /** Every poll is answered with the same node count and may update. */
  predicate AnsweredWith(polls: seq<Poll>, n: nat) {
    forall k :: 0 <= k < |polls| ==> polls[k] == Poll(Some(n), true, true)
  }

  lemma {:induction false} RepeatsForever(e: Estimator, n: nat, list: ResourceList, polls: seq<Poll>)
    requires Overwrite(ScaleWithNodes(e, n), list, list) == Some(list) && AnsweredWith(polls, n)
    ensures AfterPolls(e, (list, list), polls) == (list, list) && Updates(e, (list, list), polls) == |polls|
  {
    if polls != [] {
      RepeatsForever(e, n, list, polls[..|polls| - 1]);
      assert polls[|polls| - 1] == Poll(Some(n), true, true);
    }
  }

  /** Some deployment is updated at every poll, however many there are. */
  ghost predicate Flaps(e: Estimator, n: nat) {
    exists list :: UpdatedAtEvery(e, n, list)
  }

  ghost predicate UpdatedAtEvery(e: Estimator, n: nat, list: ResourceList) {
    forall polls :: AnsweredWith(polls, n) ==> Updates(e, (list, list), polls) == |polls|
  }

  /** No deployment is ever updated twice. */
  ghost predicate UpdatesOnce(e: Estimator, n: nat) {
    forall actual, polls :: Constant(polls, n) ==> Updates(e, actual, polls) <= 1
  }

  lemma FlappingIsTwice(e: Estimator, n: nat, list: ResourceList, polls: seq<Poll>)
    requires UpdatedAtEvery(e, n, list) && AnsweredWith(polls, n) && |polls| == 2
    ensures !UpdatesOnce(e, n)
  {
    assert Updates(e, (list, list), polls) == 2 && Constant(polls, n);
  }

  lemma UnsettledFlaps(e: Estimator, n: nat)
    requires PercentOffsets(e) && n < TWO_TO_63 && !Settles(e, n)
    ensures Flaps(e, n)
  {
    var list := UnsettledRepeats(e, n);
    forall polls | AnsweredWith(polls, n) ensures Updates(e, (list, list), polls) == |polls| {
      RepeatsForever(e, n, list, polls);
    }
    assert UpdatedAtEvery(e, n, list);
  }

  lemma SettledUpdatesOnce(e: Estimator, n: nat)
    requires Settles(e, n)
    ensures UpdatesOnce(e, n)
  {
    forall actual, polls | Constant(polls, n) ensures Updates(e, actual, polls) <= 1 {
      SettlesInOne(e, n, actual, polls);
    }
  }

  /** At any node count the resizer either changes some deployment at every poll, or none more than once. */
  lemma FlapsIff(e: Estimator, n: nat)
    requires PercentOffsets(e) && n < TWO_TO_63
    ensures Flaps(e, n) <==> !Settles(e, n)
    ensures Flaps(e, n) <==> !UpdatesOnce(e, n)
  {
    if Settles(e, n) {
      SettledUpdatesOnce(e, n);
    } else {
      UnsettledFlaps(e, n);
    }
    if Flaps(e, n) {
      var list :| UpdatedAtEvery(e, n, list);
      FlappingIsTwice(e, n, list, [Poll(Some(n), true, true), Poll(Some(n), true, true)]);
    }
  }

  /** A recommendation wider than what is acceptable makes a hundred nodes flap. */
  lemma WideRecommendationFlaps(e: Estimator)
    requires PercentOffsets(e) && e.recommendationOffset > e.acceptanceOffset && Grows(e.resources)
    ensures Flaps(e, 100)
  {
    WideIsUnsettled(e);
    FlapsIff(e, 100);
  }

  /**
   * Updates settle at every node count exactly if the recommendation is not wider than what is acceptable,
   * or nothing grows.
   */
  lemma AlwaysSettlesIff(e: Estimator)
    requires PercentOffsets(e)
    ensures (forall n: nat :: n < TWO_TO_63 ==> Settles(e, n)) <==>
            e.recommendationOffset <= e.acceptanceOffset || !Grows(e.resources)
  {
    if e.recommendationOffset <= e.acceptanceOffset {
      forall n: nat | n < TWO_TO_63 ensures Settles(e, n) {
        RecommendedIsAcceptable(e, n);
      }
    } else if !Grows(e.resources) {
      forall n: nat | n < TWO_TO_63 ensures Settles(e, n) {
        NothingGrowsSettles(e, n);
      }
    } else {
      WideIsUnsettled(e);
    }
  }

  lemma NothingGrowsSettles(e: Estimator, n: nat)
    requires PercentOffsets(e) && !Grows(e.resources)
    ensures Settles(e, n)
  {
    NothingGrows(e.resources, MinNodes(n, e.recommendationOffset), MinNodes(n, e.acceptanceOffset));
    NothingGrows(e.resources, MaxNodes(n, e.recommendationOffset), MinNodes(n, e.acceptanceOffset));
    NothingGrows(e.resources, MaxNodes(n, e.acceptanceOffset), MinNodes(n, e.acceptanceOffset));
  }
}
