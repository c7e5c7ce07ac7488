/** The cluster state registry (clusterstate/clusterstate.go). */
module ClusterState {
  import opened ClusterReadiness
  import opened Collections
  import opened FirstSeen
  import opened Wrappers

  datatype SizeMismatch = SizeMismatch(current: int, expected: int)

  function SinceOf(unregistered: map<string, Seen<string>>): map<string, int> {
    map id | id in unregistered :: unregistered[id].since
  }

  // ----- what the provider reports

  predicate SizesKnown(p: Provider) {
    forall g :: g in p.groups ==> p.targetSize(g).Some?
  }

  function TargetsOf(p: Provider): map<string, int>
    requires SizesKnown(p)
  {
    map g | g in p.groups :: p.targetSize(g).value
  }

  predicate InstancesKnown(p: Provider) {
    forall g :: g in p.groups ==> p.instances(g).Some?
  }

  /** The instances of listed groups that are not among the registered nodes. */
  function NotRegistered(p: Provider, nodes: seq<KubeNode>): set<string>
    requires InstancesKnown(p)
  {
    set g, id | g in p.groups && id in p.instances(g).value && (forall n :: n in nodes ==> n.providerID != id) :: id
  }

  function Itself(ids: set<string>): map<string, string> {
    map id | id in ids :: id
  }

  /** The number of registered nodes of `g` is outside the acceptable range. */
  predicate HasWrongSize(ranges: map<string, AcceptableRange>, readiness: map<string, Readiness>, g: string) {
    g in ranges && g in readiness
    && (readiness[g].registered > ranges[g].maxNodes || readiness[g].registered < ranges[g].minNodes)
  }

  function MismatchOf(ranges: map<string, AcceptableRange>, readiness: map<string, Readiness>, g: string): SizeMismatch
    requires g in ranges && g in readiness
  {
    SizeMismatch(readiness[g].registered, ranges[g].currentTarget)
  }

  function WrongSizes(groups: seq<string>, ranges: map<string, AcceptableRange>,
                      readiness: map<string, Readiness>): map<string, SizeMismatch>
  {
    map g | g in groups && HasWrongSize(ranges, readiness, g) :: MismatchOf(ranges, readiness, g)
  }

  method GetTargetSizes(p: Provider) returns (result: Result<map<string, int>>)
    ensures result.Success? <==> SizesKnown(p)
    ensures result.Success? ==> result.value == TargetsOf(p)
  {
    var sizes: map<string, int> := map[];
    for k := 0 to |p.groups|
      invariant forall i :: 0 <= i < k ==> p.targetSize(p.groups[i]).Some?
      invariant sizes.Keys == set g | g in p.groups[..k]
      invariant forall g :: g in sizes ==> p.targetSize(g) == Some(sizes[g])
    {
      var size := p.targetSize(p.groups[k]);
      if size.None? {
        return Failure;
      }
      sizes := sizes[p.groups[k] := size.value];
    }
    return Success(sizes);
  }

  method GetNotRegisteredNodes(nodes: seq<KubeNode>, p: Provider) returns (result: Result<seq<string>>)
    ensures result.Success? <==> InstancesKnown(p)
    ensures result.Success? ==> (set id | id in result.value) == NotRegistered(p, nodes)
  {
    var registered := set n | n in nodes :: n.providerID;
    var notRegistered: seq<string> := [];
    for k := 0 to |p.groups|
      invariant forall i :: 0 <= i < k ==> p.instances(p.groups[i]).Some?
      invariant forall id :: id in notRegistered <==>
                  id !in registered && exists i :: 0 <= i < k && id in p.instances(p.groups[i]).value
    {
      var instances := p.instances(p.groups[k]);
      if instances.None? {
        return Failure;
      }
      var ids := NotIn(instances.value, registered);
      notRegistered := notRegistered + ids;
    }
    return Success(notRegistered);
  }

  /** The elements of `ids` outside `registered`, in order. */
  method NotIn(ids: seq<string>, registered: set<string>) returns (left: seq<string>)
    ensures forall id :: id in left <==> id in ids && id !in registered
  {
    left := [];
    for k := 0 to |ids|
      invariant forall id :: id in left <==> id in ids[..k] && id !in registered
    {
      if ids[k] !in registered {
        left := left + [ids[k]];
      }
    }
  }

  // ----- readiness

  lemma GroupsOfSnoc(p: Provider, nodes: seq<KubeNode>, k: nat)
    requires k < |nodes|
    ensures
      var g := p.groupOf(nodes[k].providerID);
      GroupsOf(p, nodes[..k + 1]) == GroupsOf(p, nodes[..k]) + (if g.Group? then {g.id} else {})
  {
    assert nodes[..k + 1] == nodes[..k] + [nodes[k]];
  }

  lemma RegisteredSnoc(p: Provider, nodes: seq<KubeNode>, k: nat, now: int)
    requires k < |nodes|
    ensures
      var lookup := p.groupOf(nodes[k].providerID);
      var before := RegisteredReadiness(p, nodes[..k], now);
      RegisteredReadiness(p, nodes[..k + 1], now) ==
        if lookup.Group? then before[lookup.id := CountNode(GroupReadiness(before, lookup.id), nodes[k], now)]
          else before
  {
    GroupsOfSnoc(p, nodes, k);
    assert nodes[..k + 1][..k] == nodes[..k];
    var lookup := p.groupOf(nodes[k].providerID);
    if lookup.Group? && lookup.id !in GroupsOf(p, nodes[..k]) {
      TallyOfAbsent(p, nodes[..k], lookup.id, now);
    }
  }

  lemma {:induction false} TallyOfAbsent(p: Provider, nodes: seq<KubeNode>, g: string, now: int)
    requires g !in GroupsOf(p, nodes)
    ensures Tally(p, nodes, g, now) == NO_NODES
  {
    if nodes != [] {
      var n := |nodes| - 1;
      GroupsOfSnoc(p, nodes, n);
      assert nodes[..n + 1] == nodes;
      TallyOfAbsent(p, nodes[..n], g, now);
    }
  }

  method CountRegistered(p: Provider, nodes: seq<KubeNode>, now: int)
    returns (perNodeGroup: map<string, Readiness>, total: Readiness)
    ensures perNodeGroup == RegisteredReadiness(p, nodes, now)
    ensures total == TallyAll(nodes, now)
  {
    perNodeGroup, total := map[], NO_NODES;
    for k := 0 to |nodes|
      invariant perNodeGroup == RegisteredReadiness(p, nodes[..k], now)
      invariant total == TallyAll(nodes[..k], now)
    {
      var node := nodes[k];
      var lookup := p.groupOf(node.providerID);
      if lookup.Group? {
        perNodeGroup := perNodeGroup[lookup.id := CountNode(GroupReadiness(perNodeGroup, lookup.id), node, now)];
      }
      total := CountNode(total, node, now);
      RegisteredSnoc(p, nodes, k, now);
      assert nodes[..k + 1][..k] == nodes[..k];
    }
    assert nodes[..|nodes|] == nodes;
  }

  function Bump(r: Readiness, long: bool): Readiness {
    if long then r.(longUnregistered := r.longUnregistered + 1) else r.(unregistered := r.unregistered + 1)
  }

  /** `counts` with one more unregistered instance. */
  function Counted(p: Provider, counts: map<string, Readiness>, id: string, long: bool): map<string, Readiness> {
    var lookup := p.groupOf(id);
    if lookup.Group? then counts[lookup.id := Bump(GroupReadiness(counts, lookup.id), long)] else counts
  }

  predicate CountsFor(p: Provider, id: string, t: int, g: string, limit: int, now: int, long: bool) {
    p.groupOf(id) == Group(g) && (t + limit < now) == long
  }

  lemma WaitingSetInsert(p: Provider, since: map<string, int>, id: string, t: int, g: string, limit: int, now: int,
                         long: bool)
    requires id !in since
    ensures id !in Waiting(p, since, g, limit, now, long)
    ensures Waiting(p, since[id := t], g, limit, now, long) ==
            if CountsFor(p, id, t, g, limit, now, long) then Waiting(p, since, g, limit, now, long) + {id}
            else Waiting(p, since, g, limit, now, long)
  {
  }

  lemma WaitingReadinessInsert(p: Provider, base: map<string, Readiness>, since: map<string, int>, id: string, t: int,
                               limit: int, now: int, g: string)
    requires id !in since
    ensures WaitingReadiness(p, base, since[id := t], limit, now, g) ==
            if p.groupOf(id) == Group(g) then Bump(WaitingReadiness(p, base, since, limit, now, g), t + limit < now)
            else WaitingReadiness(p, base, since, limit, now, g)
  {
    WaitingSetInsert(p, since, id, t, g, limit, now, true);
    WaitingSetInsert(p, since, id, t, g, limit, now, false);
    AddOneSize(Waiting(p, since, g, limit, now, true), id);
    AddOneSize(Waiting(p, since, g, limit, now, false), id);
  }

  lemma NoneWaiting(p: Provider, base: map<string, Readiness>, since: map<string, int>, limit: int, now: int, g: string)
    requires g !in base.Keys + WaitingGroups(p, since)
    ensures WaitingReadiness(p, base, since, limit, now, g) == NO_NODES
  {
    assert Waiting(p, since, g, limit, now, true) == {};
    assert Waiting(p, since, g, limit, now, false) == {};
  }

  lemma WaitingGroupsInsert(p: Provider, since: map<string, int>, id: string, t: int)
    requires id !in since
    ensures WaitingGroups(p, since[id := t]) ==
            if p.groupOf(id).Group? then WaitingGroups(p, since) + {p.groupOf(id).id} else WaitingGroups(p, since)
  {
    assert forall k :: k in since[id := t] <==> k in since || k == id;
  }

  /** Counting one more instance shows in the entry of its group alone. */
  lemma WithWaitingInsertAt(p: Provider, base: map<string, Readiness>, since: map<string, int>, id: string, t: int,
                            limit: int, now: int, g: string)
    requires id !in since && g in WithWaiting(p, base, since[id := t], limit, now)
    ensures
      var counted := Counted(p, WithWaiting(p, base, since, limit, now), id, t + limit < now);
      g in counted && WaitingReadiness(p, base, since[id := t], limit, now, g) == counted[g]
  {
    WaitingGroupsInsert(p, since, id, t);
    WaitingReadinessInsert(p, base, since, id, t, limit, now, g);
    if g !in base.Keys + WaitingGroups(p, since) {
      NoneWaiting(p, base, since, limit, now, g);
    }
  }

  lemma WithWaitingInsert(p: Provider, base: map<string, Readiness>, since: map<string, int>, id: string, t: int,
                          limit: int, now: int)
    requires id !in since
    ensures WithWaiting(p, base, since[id := t], limit, now) ==
            Counted(p, WithWaiting(p, base, since, limit, now), id, t + limit < now)
  {
    var after := WithWaiting(p, base, since[id := t], limit, now);
    var counted := Counted(p, WithWaiting(p, base, since, limit, now), id, t + limit < now);
    assert after.Keys == counted.Keys by {
      WaitingGroupsInsert(p, since, id, t);
    }
    forall g | g in after ensures after[g] == counted[g] {
      WithWaitingInsertAt(p, base, since, id, t, limit, now, g);
    }
  }

  lemma NothingWaiting(p: Provider, base: map<string, Readiness>, limit: int, now: int)
    requires forall g :: g in base ==> base[g].longUnregistered == base[g].unregistered == 0
    ensures WithWaiting(p, base, map[], limit, now) == base
  {
    forall g, long ensures Waiting(p, map[], g, limit, now, long) == {} {}
  }

  lemma WaitingAnywhereInsert(p: Provider, since: map<string, int>, id: string, t: int, limit: int, now: int,
                              long: bool)
    requires id !in since
    ensures |WaitingAnywhere(p, since[id := t], limit, now, long)| ==
            |WaitingAnywhere(p, since, limit, now, long)|
              + (if p.groupOf(id).Group? && (t + limit < now) == long then 1 else 0)
  {
    var before := WaitingAnywhere(p, since, limit, now, long);
    if p.groupOf(id).Group? && (t + limit < now) == long {
      assert WaitingAnywhere(p, since[id := t], limit, now, long) == before + {id};
      AddOneSize(before, id);
    } else {
      assert WaitingAnywhere(p, since[id := t], limit, now, long) == before;
    }
  }

  function WaitingTotal(p: Provider, total: Readiness, since: map<string, int>, limit: int, now: int): Readiness {
    total.(longUnregistered := |WaitingAnywhere(p, since, limit, now, true)|,
           unregistered := |WaitingAnywhere(p, since, limit, now, false)|)
  }

  lemma WaitingTotalInsert(p: Provider, total: Readiness, since: map<string, int>, id: string, t: int, limit: int,
                           now: int)
    requires id !in since
    ensures WaitingTotal(p, total, since[id := t], limit, now) ==
            if p.groupOf(id).Group? then Bump(WaitingTotal(p, total, since, limit, now), t + limit < now)
            else WaitingTotal(p, total, since, limit, now)
  {
    WaitingAnywhereInsert(p, since, id, t, limit, now, true);
    WaitingAnywhereInsert(p, since, id, t, limit, now, false);
  }

  method CountOne(p: Provider, counts: map<string, Readiness>, sum: Readiness, id: string, since: int, limit: int,
                  now: int)
    returns (perNodeGroup: map<string, Readiness>, total: Readiness)
    requires !p.groupOf(id).NoGroup?
    ensures perNodeGroup == Counted(p, counts, id, since + limit < now)
    ensures total == if p.groupOf(id).Group? then Bump(sum, since + limit < now) else sum
  {
    perNodeGroup, total := counts, sum;
    var lookup := p.groupOf(id);
    if lookup.LookupError? {
      return;
    }
    var copy := GroupReadiness(counts, lookup.id);
    if since + limit < now {
      copy := copy.(longUnregistered := copy.longUnregistered + 1);
      total := total.(longUnregistered := total.longUnregistered + 1);
    } else {
      copy := copy.(unregistered := copy.unregistered + 1);
      total := total.(unregistered := total.unregistered + 1);
    }
    perNodeGroup := counts[lookup.id := copy];
  }

  /** Adds the unregistered instances to the counts of their groups and to the total. */
  method CountWaiting(p: Provider, base: map<string, Readiness>, sum: Readiness, since: map<string, int>, limit: int,
                      now: int)
    returns (perNodeGroup: map<string, Readiness>, total: Readiness)
    requires forall id :: id in since ==> !p.groupOf(id).NoGroup?
    requires forall g :: g in base ==> base[g].longUnregistered == base[g].unregistered == 0
    requires sum.longUnregistered == sum.unregistered == 0
    ensures perNodeGroup == WithWaiting(p, base, since, limit, now)
    ensures total == WaitingTotal(p, sum, since, limit, now)
  {
    perNodeGroup, total := base, sum;
    var todo := since.Keys;
    NothingWaiting(p, base, limit, now);
    assert since - todo == map[];
    assert forall long :: WaitingAnywhere(p, map[], limit, now, long) == {};
    while todo != {}
      invariant todo <= since.Keys
      invariant perNodeGroup == WithWaiting(p, base, since - todo, limit, now)
      invariant total == WaitingTotal(p, sum, since - todo, limit, now)
    {
      var id :| id in todo;
      perNodeGroup, total := CountOne(p, perNodeGroup, total, id, since[id], limit, now);
      WithWaitingInsert(p, base, since - todo, id, since[id], limit, now);
      WaitingTotalInsert(p, sum, since - todo, id, since[id], limit, now);
      assert since - (todo - {id}) == (since - todo)[id := since[id]];
      todo := todo - {id};
    }
    assert since - todo == since;
  }

  // ----- acceptable ranges

  lemma RangesAddGroup(groups: seq<string>, targets: map<string, int>, readiness: map<string, Readiness>, k: nat)
    requires k < |groups|
    ensures
      var g := groups[k];
      var size := if g in targets then targets[g] else 0;
      RangesOf(groups[..k + 1], targets, readiness, map[], []) ==
        RangesOf(groups[..k], targets, readiness, map[],
                 [])[g := AcceptableRange(size - GroupReadiness(readiness, g).longUnregistered, size, size)]
  {
    assert groups[..k + 1] == groups[..k] + [groups[k]];
  }

  function RangeAt(ranges: map<string, AcceptableRange>, g: string): AcceptableRange {
    if g in ranges then ranges[g] else AcceptableRange(0, 0, 0)
  }

  lemma RangesAddScaleUp(groups: seq<string>, targets: map<string, int>, readiness: map<string, Readiness>,
                         ups: map<string, ScaleUpRequest>, g: string, up: ScaleUpRequest)
    requires g !in ups
    ensures
      var before := RangesOf(groups, targets, readiness, ups, []);
      var range := RangeAt(before, g);
      RangesOf(groups, targets, readiness, ups[g := up], []) ==
        before[g := range.(minNodes := range.minNodes - up.increase)]
  {
  }

  lemma CountDeletionsSnoc(downs: seq<ScaleDownRequest>, k: nat, g: string)
    requires k < |downs|
    ensures CountDeletions(downs[..k + 1], g) == CountDeletions(downs[..k], g) + (if downs[k].group == g then 1 else 0)
    ensures g in DeletionGroups(downs[..k + 1]) <==> g in DeletionGroups(downs[..k]) || g == downs[k].group
  {
    assert downs[..k + 1][..k] == downs[..k];
    assert downs[..k + 1] == downs[..k] + [downs[k]];
  }

  lemma NoRangeIsZero(groups: seq<string>, targets: map<string, int>, readiness: map<string, Readiness>,
                      ups: map<string, ScaleUpRequest>, downs: seq<ScaleDownRequest>, g: string)
    requires g !in RangesOf(groups, targets, readiness, ups, downs)
    ensures RangeOf(groups, targets, readiness, ups, downs, g) == AcceptableRange(0, 0, 0)
  {
    NoDeletions(downs, g);
  }

  lemma RangesAddScaleDown(groups: seq<string>, targets: map<string, int>, readiness: map<string, Readiness>,
                           ups: map<string, ScaleUpRequest>, downs: seq<ScaleDownRequest>, k: nat)
    requires k < |downs|
    ensures
      var before := RangesOf(groups, targets, readiness, ups, downs[..k]);
      var range := RangeAt(before, downs[k].group);
      RangesOf(groups, targets, readiness, ups, downs[..k + 1]) ==
        before[downs[k].group := range.(maxNodes := range.maxNodes + 1)]
  {
    var before := RangesOf(groups, targets, readiness, ups, downs[..k]);
    var after := RangesOf(groups, targets, readiness, ups, downs[..k + 1]);
    var range := RangeAt(before, downs[k].group);
    var added := before[downs[k].group := range.(maxNodes := range.maxNodes + 1)];
    if downs[k].group !in before {
      NoRangeIsZero(groups, targets, readiness, ups, downs[..k], downs[k].group);
    }
    forall g | g in after || g in added ensures g in after && g in added && after[g] == added[g] {
      RangeOfSnoc(groups, targets, readiness, ups, downs, k, g);
    }
  }

  lemma RangeOfSnoc(groups: seq<string>, targets: map<string, int>, readiness: map<string, Readiness>,
                    ups: map<string, ScaleUpRequest>, downs: seq<ScaleDownRequest>, k: nat, g: string)
    requires k < |downs|
    ensures
      var before := RangeOf(groups, targets, readiness, ups, downs[..k], g);
      RangeOf(groups, targets, readiness, ups, downs[..k + 1], g) ==
        if g == downs[k].group then before.(maxNodes := before.maxNodes + 1) else before
    ensures g in DeletionGroups(downs[..k + 1]) <==> g in DeletionGroups(downs[..k]) || g == downs[k].group
  {
    CountDeletionsSnoc(downs, k, g);
  }

  lemma {:induction false} NoDeletions(downs: seq<ScaleDownRequest>, g: string)
    requires g !in DeletionGroups(downs)
    ensures CountDeletions(downs, g) == 0
  {
    if downs != [] {
      var n := |downs| - 1;
      assert downs[n].group in DeletionGroups(downs);
      assert DeletionGroups(downs[..n]) <= DeletionGroups(downs);
      NoDeletions(downs[..n], g);
    }
  }

  method GroupRanges(groups: seq<string>, targets: map<string, int>, readiness: map<string, Readiness>)
    returns (result: map<string, AcceptableRange>)
    ensures result == RangesOf(groups, targets, readiness, map[], [])
  {
    result := map[];
    for k := 0 to |groups|
      invariant result == RangesOf(groups[..k], targets, readiness, map[], [])
    {
      var id := groups[k];
      var size := if id in targets then targets[id] else 0;
      result := result[id := AcceptableRange(size - GroupReadiness(readiness, id).longUnregistered, size, size)];
      RangesAddGroup(groups, targets, readiness, k);
    }
    assert groups[..|groups|] == groups;
  }

  method LowerForScaleUps(ranges: map<string, AcceptableRange>, ups: map<string, ScaleUpRequest>,
                          ghost groups: seq<string>, ghost targets: map<string, int>,
                          ghost readiness: map<string, Readiness>)
    returns (result: map<string, AcceptableRange>)
    requires ranges == RangesOf(groups, targets, readiness, map[], [])
    ensures result == RangesOf(groups, targets, readiness, ups, [])
  {
    result := ranges;
    var todo := ups.Keys;
    assert ups - todo == map[];
    while todo != {}
      invariant todo <= ups.Keys
      invariant result == RangesOf(groups, targets, readiness, ups - todo, [])
    {
      var id :| id in todo;
      var range := RangeAt(result, id);
      result := result[id := range.(minNodes := range.minNodes - ups[id].increase)];
      RangesAddScaleUp(groups, targets, readiness, ups - todo, id, ups[id]);
      assert ups - (todo - {id}) == (ups - todo)[id := ups[id]];
      todo := todo - {id};
    }
    assert ups - todo == ups;
  }

  method RaiseForScaleDowns(ranges: map<string, AcceptableRange>, downs: seq<ScaleDownRequest>,
                            ghost groups: seq<string>, ghost targets: map<string, int>,
                            ghost readiness: map<string, Readiness>, ghost ups: map<string, ScaleUpRequest>)
    returns (result: map<string, AcceptableRange>)
    requires ranges == RangesOf(groups, targets, readiness, ups, [])
    ensures result == RangesOf(groups, targets, readiness, ups, downs)
  {
    result := ranges;
    for k := 0 to |downs|
      invariant result == RangesOf(groups, targets, readiness, ups, downs[..k])
    {
      var range := RangeAt(result, downs[k].group);
      result := result[downs[k].group := range.(maxNodes := range.maxNodes + 1)];
      RangesAddScaleDown(groups, targets, readiness, ups, downs, k);
    }
    assert downs[..|downs|] == downs;
  }

  // ----- scale-up requests

  /** More nodes are wanted than provisioned; a group without a range has no upcoming nodes. */
  predicate AreThereUpcoming(ranges: map<string, AcceptableRange>, readiness: map<string, Readiness>, g: string) {
    g in ranges && ranges[g].currentTarget > GroupReadiness(readiness, g).Provisioned()
  }

  function Finished(ups: map<string, ScaleUpRequest>, ranges: map<string, AcceptableRange>,
                    readiness: map<string, Readiness>): set<string>
  {
    set g | g in ups && !AreThereUpcoming(ranges, readiness, g)
  }

  function TimedOut(ups: map<string, ScaleUpRequest>, ranges: map<string, AcceptableRange>,
                    readiness: map<string, Readiness>, now: int): set<string>
  {
    set g | g in ups && AreThereUpcoming(ranges, readiness, g) && ups[g].expectedAddTime < now
  }

  function Surviving(ups: map<string, ScaleUpRequest>, ranges: map<string, AcceptableRange>,
                     readiness: map<string, Readiness>, now: int): map<string, ScaleUpRequest>
  {
    ups - Finished(ups, ranges, readiness) - TimedOut(ups, ranges, readiness, now)
  }

  /** Counts the registered nodes, and on top of them the unregistered ones. */
  method CountAll(p: Provider, nodes: seq<KubeNode>, since: map<string, int>, limit: int, now: int)
    returns (perNodeGroup: map<string, Readiness>, total: Readiness)
    requires forall id :: id in since ==> !p.groupOf(id).NoGroup?
    ensures perNodeGroup == ReadinessOf(p, nodes, since, limit, now)
    ensures total == TotalReadiness(p, nodes, since, limit, now)
  {
    perNodeGroup, total := CountRegistered(p, nodes, now);
    forall g | g in perNodeGroup
      ensures perNodeGroup[g].longUnregistered == perNodeGroup[g].unregistered == 0
    {
      TallyPartitions(p, nodes, g, now);
    }
    TallyAllPartitions(nodes, now);
    perNodeGroup, total := CountWaiting(p, perNodeGroup, total, since, limit, now);
  }

  class ClusterStateRegistry {
    const maxNodeProvisionTime: int
    var scaleUpRequests: map<string, ScaleUpRequest>
    var scaleDownRequests: seq<ScaleDownRequest>
    var nodes: seq<KubeNode>
    var perNodeGroupReadiness: map<string, Readiness>
    var totalReadiness: Readiness
    var acceptableRanges: map<string, AcceptableRange>
    var incorrectNodeGroupSizes: map<string, Seen<SizeMismatch>>
    var unregisteredNodes: map<string, Seen<string>>
    /** What each successful update observed. */
    ghost var sizeHistory: seq<Event<string, SizeMismatch>>
    ghost var unregisteredHistory: seq<Event<string, string>>

    ghost predicate Valid()
      reads this`incorrectNodeGroupSizes, this`sizeHistory, this`unregisteredNodes, this`unregisteredHistory
    {
      && incorrectNodeGroupSizes == After(sizeHistory)
      && unregisteredNodes == After(unregisteredHistory)
      && forall id :: id in unregisteredNodes ==> unregisteredNodes[id].what == id
    }

    constructor (maxNodeProvisionTime: int)
      ensures Valid() && this.maxNodeProvisionTime == maxNodeProvisionTime
      ensures scaleUpRequests == map[] && scaleDownRequests == [] && sizeHistory == [] && unregisteredHistory == []
    {
      this.maxNodeProvisionTime := maxNodeProvisionTime;
      scaleUpRequests, scaleDownRequests, nodes := map[], [], [];
      perNodeGroupReadiness, totalReadiness, acceptableRanges := map[], NO_NODES, map[];
      incorrectNodeGroupSizes, unregisteredNodes := map[], map[];
      sizeHistory, unregisteredHistory := [], [];
    }

    /** A further request for a group adds to the pending increase and moves its deadline. */
    method RegisterScaleUp(request: ScaleUpRequest)
      requires Valid()
      modifies this`scaleUpRequests
      ensures Valid()
      ensures
        var pending := if request.group in old(scaleUpRequests) then old(scaleUpRequests)[request.group].increase
          else 0;
        scaleUpRequests == old(scaleUpRequests)[request.group := request.(increase := pending + request.increase)]
    {
      if request.group !in scaleUpRequests {
        scaleUpRequests := scaleUpRequests[request.group := request];
        return;
      }
      var oldRequest := scaleUpRequests[request.group];
      scaleUpRequests := scaleUpRequests[request.group :=
        oldRequest.(group := request.group, time := request.time, expectedAddTime := request.expectedAddTime,
                    increase := oldRequest.increase + request.increase)];
    }

    method RegisterScaleDown(request: ScaleDownRequest)
      requires Valid()
      modifies this`scaleDownRequests
      ensures Valid() && scaleDownRequests == old(scaleDownRequests) + [request]
    {
      scaleDownRequests := scaleDownRequests + [request];
    }

    method UpdateReadinessStats(p: Provider, now: int)
      requires forall id :: id in unregisteredNodes ==> !p.groupOf(id).NoGroup?
      modifies this`perNodeGroupReadiness, this`totalReadiness
      ensures perNodeGroupReadiness == ReadinessOf(p, nodes, SinceOf(unregisteredNodes), maxNodeProvisionTime, now)
      ensures totalReadiness == TotalReadiness(p, nodes, SinceOf(unregisteredNodes), maxNodeProvisionTime, now)
    {
      var perNodeGroup, total := CountAll(p, nodes, SinceOf(unregisteredNodes), maxNodeProvisionTime, now);
      perNodeGroupReadiness := perNodeGroup;
      totalReadiness := total;
    }

    method UpdateAcceptableRanges(p: Provider, targets: map<string, int>)
      modifies this`acceptableRanges
      ensures acceptableRanges == RangesOf(p.groups, targets, perNodeGroupReadiness, scaleUpRequests, scaleDownRequests)
    {
      var result := GroupRanges(p.groups, targets, perNodeGroupReadiness);
      result := LowerForScaleUps(result, scaleUpRequests, p.groups, targets, perNodeGroupReadiness);
      result := RaiseForScaleDowns(result, scaleDownRequests, p.groups, targets, perNodeGroupReadiness,
                                   scaleUpRequests);
      acceptableRanges := result;
    }

    /** Drops finished and timed-out scale-ups and expired deletions. */
    method UpdateScaleRequests(now: int) returns (finished: set<string>, timedOut: set<string>)
      modifies this`scaleUpRequests, this`scaleDownRequests
      ensures finished == Finished(old(scaleUpRequests), acceptableRanges, perNodeGroupReadiness)
      ensures timedOut == TimedOut(old(scaleUpRequests), acceptableRanges, perNodeGroupReadiness, now)
      ensures scaleUpRequests == Surviving(old(scaleUpRequests), acceptableRanges, perNodeGroupReadiness, now)
      ensures scaleDownRequests == Unexpired(old(scaleDownRequests), now)
    {
      finished, timedOut := {}, {};
      var ups := scaleUpRequests;
      var todo := ups.Keys;
      while todo != {}
        invariant todo <= ups.Keys
        invariant finished == Finished(ups - todo, acceptableRanges, perNodeGroupReadiness)
        invariant timedOut == TimedOut(ups - todo, acceptableRanges, perNodeGroupReadiness, now)
        invariant scaleUpRequests == ups - finished - timedOut
        invariant scaleDownRequests == old(scaleDownRequests)
      {
        var group :| group in todo;
        todo := todo - {group};
        if !AreThereUpcoming(acceptableRanges, perNodeGroupReadiness, group) {
          scaleUpRequests := scaleUpRequests - {group};
          finished := finished + {group};
        } else if ups[group].expectedAddTime < now {
          scaleUpRequests := scaleUpRequests - {group};
          timedOut := timedOut + {group};
        }
      }
      assert ups - todo == ups;

      var newScaleDownRequests: seq<ScaleDownRequest> := [];
      for k := 0 to |scaleDownRequests|
        invariant newScaleDownRequests == Unexpired(scaleDownRequests[..k], now)
      {
        assert scaleDownRequests[..k + 1][..k] == scaleDownRequests[..k];
        if scaleDownRequests[k].expectedDeleteTime > now {
          newScaleDownRequests := newScaleDownRequests + [scaleDownRequests[k]];
        }
      }
      assert scaleDownRequests[..|scaleDownRequests|] == scaleDownRequests;
      scaleDownRequests := newScaleDownRequests;
    }

    /** Recomputes the ranges; when the provider does not answer, every target counts as zero. */
    method Recalculate(p: Provider)
      requires Valid()
      modifies this`acceptableRanges
      ensures Valid()
      ensures acceptableRanges == RangesOf(p.groups, if SizesKnown(p) then TargetsOf(p) else map[],
                                           perNodeGroupReadiness, scaleUpRequests, scaleDownRequests)
    {
      var targetSizes := GetTargetSizes(p);
      UpdateAcceptableRanges(p, if targetSizes.Success? then targetSizes.value else map[]);
    }

    method UpdateIncorrectNodeGroupSizes(p: Provider, now: int)
      modifies this`incorrectNodeGroupSizes
      ensures incorrectNodeGroupSizes ==
              Track(old(incorrectNodeGroupSizes),
                    Observe(now, WrongSizes(p.groups, acceptableRanges, perNodeGroupReadiness)))
    {
      var result: map<string, Seen<SizeMismatch>> := map[];
      for k := 0 to |p.groups|
        invariant unchanged(this)
        invariant forall g :: g in result <==>
                  g in p.groups[..k] && HasWrongSize(acceptableRanges, perNodeGroupReadiness, g)
        invariant forall g :: g in result ==>
                    result[g] ==
                      Noted(incorrectNodeGroupSizes, g, MismatchOf(acceptableRanges, perNodeGroupReadiness, g), now)
      {
        var id := p.groups[k];
        assert p.groups[..k + 1] == p.groups[..k] + [id];
        if id in acceptableRanges && id in perNodeGroupReadiness {
          var range, readiness := acceptableRanges[id], perNodeGroupReadiness[id];
          if readiness.registered > range.maxNodes || readiness.registered < range.minNodes {
            var incorrect := Seen(SizeMismatch(readiness.registered, range.currentTarget), now);
            if id in incorrectNodeGroupSizes {
              var existing := incorrectNodeGroupSizes[id];
              if incorrect.what.current == existing.what.current && incorrect.what.expected == existing.what.expected {
                incorrect := existing;
              }
            }
            result := result[id := incorrect];
          }
        }
      }
      assert p.groups[..|p.groups|] == p.groups;
      incorrectNodeGroupSizes := result;
    }

    method UpdateUnregisteredNodes(notRegistered: seq<string>, now: int)
      requires forall id :: id in unregisteredNodes ==> unregisteredNodes[id].what == id
      modifies this`unregisteredNodes
      ensures unregisteredNodes == Track(old(unregisteredNodes), Observe(now, Itself(set id | id in notRegistered)))
    {
      var result: map<string, Seen<string>> := map[];
      for k := 0 to |notRegistered|
        invariant unchanged(this)
        invariant forall id :: id in result <==> id in notRegistered[..k]
        invariant forall id :: id in result ==> result[id] == Noted(unregisteredNodes, id, id, now)
      {
        var id := notRegistered[k];
        assert notRegistered[..k + 1] == notRegistered[..k] + [id];
        if id in unregisteredNodes {
          result := result[id := unregisteredNodes[id]];
        } else {
          result := result[id := Seen(id, now)];
        }
      }
      assert notRegistered[..|notRegistered|] == notRegistered;
      unregisteredNodes := result;
    }

    /** One refresh of the registry. When the provider fails to answer, nothing changes. */
    method UpdateNodes(newNodes: seq<KubeNode>, p: Provider, now: int)
      returns (ok: bool, finished: set<string>, timedOut: set<string>)
      requires Valid()
      requires forall g, id :: g in p.groups && p.instances(g).Some? && id in p.instances(g).value ==>
                 !p.groupOf(id).NoGroup?
      modifies this
      ensures Valid()
      ensures ok <==> SizesKnown(p) && InstancesKnown(p)
      ensures !ok ==> unchanged(this)
      ensures ok ==> nodes == newNodes && Counted(p, now)
      ensures ok ==>
                Refreshed(p, TargetsOf(p), perNodeGroupReadiness, now, old(scaleUpRequests), old(scaleDownRequests),
                          scaleUpRequests, scaleDownRequests, acceptableRanges)
      ensures ok ==> unregisteredHistory == old(unregisteredHistory) + [Observe(now, Itself(NotRegistered(p, nodes)))]
      ensures ok ==>
                sizeHistory ==
                  old(sizeHistory) + [Observe(now, WrongSizes(p.groups, acceptableRanges, perNodeGroupReadiness))]
    {
      finished, timedOut := {}, {};
      var targetSizes := GetTargetSizes(p);
      if targetSizes.Failure? {
        return false, {}, {};
      }
      var notRegistered := GetNotRegisteredNodes(newNodes, p);
      if notRegistered.Failure? {
        return false, {}, {};
      }
      finished, timedOut := UpdateFrom(newNodes, p, targetSizes.value, notRegistered.value, now);
      ok := true;
    }

    /** What an update does once the provider has answered. */
    method UpdateFrom(newNodes: seq<KubeNode>, p: Provider, targetSizes: map<string, int>, notRegistered: seq<string>,
                      now: int)
      returns (finished: set<string>, timedOut: set<string>)
      requires Valid() && InstancesKnown(p)
      requires (set id | id in notRegistered) == NotRegistered(p, newNodes)
      requires forall id :: id in NotRegistered(p, newNodes) ==> !p.groupOf(id).NoGroup?
      modifies this
      ensures Valid() && nodes == newNodes && Counted(p, now)
      ensures Refreshed(p, targetSizes, perNodeGroupReadiness, now, old(scaleUpRequests), old(scaleDownRequests),
                        scaleUpRequests, scaleDownRequests, acceptableRanges)
      ensures unregisteredHistory == old(unregisteredHistory) + [Observe(now, Itself(NotRegistered(p, nodes)))]
      ensures sizeHistory ==
              old(sizeHistory) + [Observe(now, WrongSizes(p.groups, acceptableRanges, perNodeGroupReadiness))]
    {
      CountNodes(newNodes, p, notRegistered, now);
      finished, timedOut := Refresh(p, targetSizes, now);
      NoteWrongSizes(p, now);
    }

    /** The counts are those of the current nodes and unregistered instances. */
    ghost predicate Counted(p: Provider, now: int)
      reads this`nodes, this`unregisteredNodes, this`perNodeGroupReadiness, this`totalReadiness
    {
      && perNodeGroupReadiness == ReadinessOf(p, nodes, SinceOf(unregisteredNodes), maxNodeProvisionTime, now)
      && totalReadiness == TotalReadiness(p, nodes, SinceOf(unregisteredNodes), maxNodeProvisionTime, now)
    }

    method CountNodes(newNodes: seq<KubeNode>, p: Provider, notRegistered: seq<string>, now: int)
      requires Valid() && InstancesKnown(p)
      requires (set id | id in notRegistered) == NotRegistered(p, newNodes)
      requires forall id :: id in NotRegistered(p, newNodes) ==> !p.groupOf(id).NoGroup?
      modifies this`nodes, this`unregisteredNodes, this`unregisteredHistory, this`perNodeGroupReadiness,
               this`totalReadiness
      ensures Valid() && nodes == newNodes && Counted(p, now)
      ensures unregisteredHistory == old(unregisteredHistory) + [Observe(now, Itself(NotRegistered(p, nodes)))]
    {
      nodes := newNodes;
      NoteUnregistered(p, notRegistered, now);
      UpdateReadinessStats(p, now);
    }

    method NoteUnregistered(p: Provider, notRegistered: seq<string>, now: int)
      requires Valid() && InstancesKnown(p)
      requires (set id | id in notRegistered) == NotRegistered(p, nodes)
      modifies this`unregisteredNodes, this`unregisteredHistory
      ensures Valid() && unregisteredNodes.Keys == NotRegistered(p, nodes)
      ensures unregisteredHistory == old(unregisteredHistory) + [Observe(now, Itself(NotRegistered(p, nodes)))]
    {
      UpdateUnregisteredNodes(notRegistered, now);
      unregisteredHistory := unregisteredHistory + [Observe(now, Itself(NotRegistered(p, nodes)))];
    }

    method NoteWrongSizes(p: Provider, now: int)
      requires Valid()
      modifies this`incorrectNodeGroupSizes, this`sizeHistory
      ensures Valid()
      ensures sizeHistory ==
              old(sizeHistory) + [Observe(now, WrongSizes(p.groups, acceptableRanges, perNodeGroupReadiness))]
    {
      UpdateIncorrectNodeGroupSizes(p, now);
      sizeHistory := sizeHistory + [Observe(now, WrongSizes(p.groups, acceptableRanges, perNodeGroupReadiness))];
    }

    /** Ranges from the pending requests, then the requests from the ranges, then the ranges again. */
    method Refresh(p: Provider, targetSizes: map<string, int>, now: int)
      returns (finished: set<string>, timedOut: set<string>)
      modifies this`acceptableRanges, this`scaleUpRequests, this`scaleDownRequests
      ensures Refreshed(p, targetSizes, perNodeGroupReadiness, now, old(scaleUpRequests), old(scaleDownRequests),
                        scaleUpRequests, scaleDownRequests, acceptableRanges)
    {
      UpdateAcceptableRanges(p, targetSizes);
      finished, timedOut := UpdateScaleRequests(now);
      UpdateAcceptableRanges(p, targetSizes);
    }
  }

  /**
   * How an update at `now` turns the pending requests `ups0` and `downs0` into `ups` and `downs`, and the
   * final ranges.
   */
  predicate Refreshed(p: Provider, targets: map<string, int>, readiness: map<string, Readiness>, now: int,
                      ups0: map<string, ScaleUpRequest>, downs0: seq<ScaleDownRequest>,
                      ups: map<string, ScaleUpRequest>, downs: seq<ScaleDownRequest>,
                      ranges: map<string, AcceptableRange>)
  {
    && ups == Surviving(ups0, RangesOf(p.groups, targets, readiness, ups0, downs0), readiness, now)
    && downs == Unexpired(downs0, now)
    && ranges == RangesOf(p.groups, targets, readiness, ups, downs)
  }

  // ----- what an update leaves behind

  lemma RangeLookup(groups: seq<string>, targets: map<string, int>, readiness: map<string, Readiness>,
                    ups: map<string, ScaleUpRequest>, downs: seq<ScaleDownRequest>, g: string)
    ensures
      var ranges := RangesOf(groups, targets, readiness, ups, downs);
      && (g in groups || g in ups ==> g in ranges)
      && (g in ranges ==> ranges[g] == RangeOf(groups, targets, readiness, ups, downs, g))
  {
  }

  /** Whether a group with a pending request waits for nodes does not depend on the requests. */
  lemma UpcomingIsTarget(groups: seq<string>, targets: map<string, int>, readiness: map<string, Readiness>,
                         ups: map<string, ScaleUpRequest>, downs: seq<ScaleDownRequest>, g: string)
    requires g in ups
    ensures AreThereUpcoming(RangesOf(groups, targets, readiness, ups, downs), readiness, g) <==>
            Target(groups, targets, g) > GroupReadiness(readiness, g).Provisioned()
  {
    RangeLookup(groups, targets, readiness, ups, downs, g);
  }

  lemma SurvivesIff(ups: map<string, ScaleUpRequest>, ranges: map<string, AcceptableRange>,
                    readiness: map<string, Readiness>, now: int, g: string)
    ensures g in Surviving(ups, ranges, readiness, now) <==>
            g in ups && AreThereUpcoming(ranges, readiness, g) && ups[g].expectedAddTime >= now
    ensures g in Surviving(ups, ranges, readiness, now) ==> Surviving(ups, ranges, readiness, now)[g] == ups[g]
  {
  }

  /**
   * Exactly the unexpired requests of listed groups that still wait for nodes survive, unchanged.
   * A group that is no longer listed counts as having target zero, which no group is below.
   */
  lemma SurvivingScaleUps(p: Provider, targets: map<string, int>, nodes: seq<KubeNode>, since: map<string, int>,
                          limit: int, now: int, ups: map<string, ScaleUpRequest>, downs: seq<ScaleDownRequest>,
                          g: string)
    ensures
      var readiness := ReadinessOf(p, nodes, since, limit, now);
      var left := Surviving(ups, RangesOf(p.groups, targets, readiness, ups, downs), readiness, now);
      && (g in left <==>
          g in ups && g in p.groups && g in targets
          && targets[g] > GroupReadiness(readiness, g).Provisioned()
          && ups[g].expectedAddTime >= now)
      && (g in left ==> left[g] == ups[g])
  {
    var readiness := ReadinessOf(p, nodes, since, limit, now);
    SurvivesIff(ups, RangesOf(p.groups, targets, readiness, ups, downs), readiness, now, g);
    ReadinessPartitions(p, nodes, since, limit, now, g);
    if g in ups {
      UpcomingIsTarget(p.groups, targets, readiness, ups, downs, g);
    }
  }

  lemma {:induction false} UnexpiredTwice(downs: seq<ScaleDownRequest>, now: int)
    ensures Unexpired(Unexpired(downs, now), now) == Unexpired(downs, now)
  {
    if downs != [] {
      var n := |downs| - 1;
      var before := Unexpired(downs[..n], now);
      UnexpiredTwice(downs[..n], now);
      if downs[n].expectedDeleteTime > now {
        assert (before + [downs[n]])[..|before|] == before;
      }
    }
  }

  /** A request that survived once survives again at the same time. */
  lemma SurvivesTwice(groups: seq<string>, targets: map<string, int>, readiness: map<string, Readiness>, now: int,
                      ups0: map<string, ScaleUpRequest>, downs0: seq<ScaleDownRequest>, downs: seq<ScaleDownRequest>,
                      g: string)
    ensures
      var ups := Surviving(ups0, RangesOf(groups, targets, readiness, ups0, downs0), readiness, now);
      g in ups ==> g in Surviving(ups, RangesOf(groups, targets, readiness, ups, downs), readiness, now)
  {
    var ups := Surviving(ups0, RangesOf(groups, targets, readiness, ups0, downs0), readiness, now);
    if g in ups {
      SurvivesIff(ups0, RangesOf(groups, targets, readiness, ups0, downs0), readiness, now, g);
      UpcomingIsTarget(groups, targets, readiness, ups0, downs0, g);
      UpcomingIsTarget(groups, targets, readiness, ups, downs, g);
      SurvivesIff(ups, RangesOf(groups, targets, readiness, ups, downs), readiness, now, g);
    }
  }

  lemma AllSurvive(ups: map<string, ScaleUpRequest>, ranges: map<string, AcceptableRange>,
                   readiness: map<string, Readiness>, now: int)
    requires forall g :: g in ups ==> g in Surviving(ups, ranges, readiness, now)
    ensures Surviving(ups, ranges, readiness, now) == ups
  {
  }

  /** Refreshing again at the same time, with the same answers, changes nothing. */
  lemma RefreshIsFixpoint(p: Provider, targets: map<string, int>, readiness: map<string, Readiness>, now: int,
                          ups0: map<string, ScaleUpRequest>, downs0: seq<ScaleDownRequest>,
                          ups: map<string, ScaleUpRequest>, downs: seq<ScaleDownRequest>,
                          ranges: map<string, AcceptableRange>)
    requires Refreshed(p, targets, readiness, now, ups0, downs0, ups, downs, ranges)
    ensures Refreshed(p, targets, readiness, now, ups, downs, ups, downs, ranges)
  {
    UnexpiredTwice(downs0, now);
    forall g | g in ups ensures g in Surviving(ups, ranges, readiness, now) {
      SurvivesTwice(p.groups, targets, readiness, now, ups0, downs0, downs, g);
    }
    AllSurvive(ups, ranges, readiness, now);
  }

  /** The deletions of group `g` that are still expected after `now`. */
  function PendingDeletions(downs: seq<ScaleDownRequest>, g: string, now: int): set<nat> {
    set i | 0 <= i < |downs| && downs[i].group == g && downs[i].expectedDeleteTime > now
  }

  lemma {:induction false} PendingAreCounted(downs: seq<ScaleDownRequest>, g: string, now: int)
    ensures CountDeletions(Unexpired(downs, now), g) == |PendingDeletions(downs, g, now)|
  {
    if downs != [] {
      var n := |downs| - 1;
      var before := Unexpired(downs[..n], now);
      var pending := PendingDeletions(downs[..n], g, now);
      PendingAreCounted(downs[..n], g, now);
      assert (before + [downs[n]])[..|before|] == before;
      AddOneSize(pending, n);
      assert PendingDeletions(downs, g, now) ==
             if downs[n].group == g && downs[n].expectedDeleteTime > now then pending + {n} else pending;
    }
  }

  /**
   * After an update a listed group may lack what is pending or long missing, and may exceed its target by
   * the pending deletions.
   */
  lemma RangeOfListedGroup(groups: seq<string>, targets: map<string, int>, readiness: map<string, Readiness>, now: int,
                           ups: map<string, ScaleUpRequest>, downs0: seq<ScaleDownRequest>, g: string)
    requires g in groups && g in targets
    ensures
      var ranges := RangesOf(groups, targets, readiness, ups, Unexpired(downs0, now));
      g in ranges && ranges[g] == AcceptableRange(
        targets[g] - GroupReadiness(readiness, g).longUnregistered - (if g in ups then ups[g].increase else 0),
        targets[g] + |PendingDeletions(downs0, g, now)|,
        targets[g])
  {
    RangeLookup(groups, targets, readiness, ups, Unexpired(downs0, now), g);
    PendingAreCounted(downs0, g, now);
  }
}
