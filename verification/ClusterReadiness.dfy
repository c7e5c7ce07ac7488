/** Readiness counting and acceptable ranges of node groups (clusterstate/clusterstate.go). */
module ClusterReadiness {
  import opened Wrappers

  // Durations in seconds.
  const MAX_NODE_STARTUP_TIME := 15 * 60
  const MAX_STATUS_SETTING_DELAY_AFTER_CREATION := 2 * 60

  datatype ConditionKind = NodeReady | OutOfDisk | NetworkUnavailable | OtherCondition

  datatype Condition = Condition(kind: ConditionKind, isTrue: bool, lastTransition: int)

  datatype KubeNode = KubeNode(name: string, providerID: string, created: int, ready: bool,
                               toBeDeleted: bool, conditions: seq<Condition>)

  datatype GroupLookup = NoGroup | Group(id: string) | LookupError

  /** The answers of the cloud provider during one update. */
  datatype Provider = Provider(groups: seq<string>, targetSize: string -> Option<int>,
                               instances: string -> Option<seq<string>>, groupOf: string -> GroupLookup)

  datatype Readiness = Readiness(ready: int, unready: int, deleted: int, longNotStarted: int, notStarted: int,
                                 registered: int, longUnregistered: int, unregistered: int)
  {
    /** Every registered node is counted in exactly one of the five classes. */
    predicate Partitioned() {
      && registered == deleted + longNotStarted + notStarted + ready + unready
      && deleted >= 0 && longNotStarted >= 0 && notStarted >= 0 && ready >= 0 && unready >= 0
    }

    function Provisioned(): int {
      registered - notStarted - longNotStarted
    }
  }

  const NO_NODES := Readiness(0, 0, 0, 0, 0, 0, 0, 0)

  datatype AcceptableRange = AcceptableRange(minNodes: int, maxNodes: int, currentTarget: int)

  datatype ScaleUpRequest = ScaleUpRequest(group: string, time: int, expectedAddTime: int, increase: int)

  datatype ScaleDownRequest = ScaleDownRequest(nodeName: string, group: string, time: int, expectedDeleteTime: int)

  // ----- one node

  predicate Starting(c: Condition, created: int) {
    && c.lastTransition - created < MAX_STATUS_SETTING_DELAY_AFTER_CREATION
    && match c.kind
       case NodeReady => !c.isTrue
       case OutOfDisk => c.isTrue
       case NetworkUnavailable => c.isTrue
       case OtherCondition => false
  }

  predicate IsNodeStillStarting(node: KubeNode) {
    exists c :: c in node.conditions && Starting(c, node.created)
  }

  /** `current` with one more registered node. */
  function CountNode(current: Readiness, node: KubeNode, now: int): Readiness {
    var r := current.(registered := current.registered + 1);
    if node.toBeDeleted then r.(deleted := r.deleted + 1)
    else if IsNodeStillStarting(node) && node.created + MAX_NODE_STARTUP_TIME < now
      then r.(longNotStarted := r.longNotStarted + 1)
    else if IsNodeStillStarting(node) then r.(notStarted := r.notStarted + 1)
    else if node.ready then r.(ready := r.ready + 1)
    else r.(unready := r.unready + 1)
  }

  // ----- all nodes

  function GroupsOf(p: Provider, nodes: seq<KubeNode>): set<string> {
    set node | node in nodes && p.groupOf(node.providerID).Group? :: p.groupOf(node.providerID).id
  }

  /** The count over the nodes of group `g`. */
  function Tally(p: Provider, nodes: seq<KubeNode>, g: string, now: int): Readiness {
    if nodes == [] then NO_NODES
    else
      var before := Tally(p, nodes[..|nodes| - 1], g, now);
      var node := nodes[|nodes| - 1];
      if p.groupOf(node.providerID) == Group(g) then CountNode(before, node, now) else before
  }

  function TallyAll(nodes: seq<KubeNode>, now: int): Readiness {
    if nodes == [] then NO_NODES
    else CountNode(TallyAll(nodes[..|nodes| - 1], now), nodes[|nodes| - 1], now)
  }

  /** Of the unregistered instances `since`, those of group `g` that are overdue (or not, for `long` false). */
  function Waiting(p: Provider, since: map<string, int>, g: string, limit: int, now: int, long: bool): set<string> {
    set id | id in since && p.groupOf(id) == Group(g) && (since[id] + limit < now) == long
  }

  function WaitingGroups(p: Provider, since: map<string, int>): set<string> {
    set id | id in since && p.groupOf(id).Group? :: p.groupOf(id).id
  }

  function GroupReadiness(readiness: map<string, Readiness>, g: string): Readiness {
    if g in readiness then readiness[g] else NO_NODES
  }

  function TalliesOf(p: Provider, nodes: seq<KubeNode>, now: int, groups: set<string>): map<string, Readiness> {
    map g | g in groups :: Tally(p, nodes, g, now)
  }

  function RegisteredReadiness(p: Provider, nodes: seq<KubeNode>, now: int): map<string, Readiness> {
    TalliesOf(p, nodes, now, GroupsOf(p, nodes))
  }

  function WaitingReadiness(p: Provider, base: map<string, Readiness>, since: map<string, int>, limit: int, now: int,
                            g: string): Readiness
  {
    GroupReadiness(base, g).(longUnregistered := |Waiting(p, since, g, limit, now, true)|,
                             unregistered := |Waiting(p, since, g, limit, now, false)|)
  }

  /** `base` with the unregistered instances in `since` counted in. */
  function WithWaiting(p: Provider, base: map<string, Readiness>, since: map<string, int>, limit: int,
                       now: int): map<string, Readiness>
  {
    map g | g in base.Keys + WaitingGroups(p, since) :: WaitingReadiness(p, base, since, limit, now, g)
  }

  /** Readiness per group: registered nodes by class, and instances that have not registered. */
  function ReadinessOf(p: Provider, nodes: seq<KubeNode>, since: map<string, int>, limit: int,
                       now: int): map<string, Readiness>
  {
    WithWaiting(p, RegisteredReadiness(p, nodes, now), since, limit, now)
  }

  /** The unregistered instances that belong to some group. */
  function WaitingAnywhere(p: Provider, since: map<string, int>, limit: int, now: int, long: bool): set<string> {
    set id | id in since && p.groupOf(id).Group? && (since[id] + limit < now) == long
  }

  function TotalReadiness(p: Provider, nodes: seq<KubeNode>, since: map<string, int>, limit: int, now: int): Readiness {
    TallyAll(nodes, now).(longUnregistered := |WaitingAnywhere(p, since, limit, now, true)|,
                          unregistered := |WaitingAnywhere(p, since, limit, now, false)|)
  }

  lemma {:induction false} TallyPartitions(p: Provider, nodes: seq<KubeNode>, g: string, now: int)
    ensures Tally(p, nodes, g, now).Partitioned()
    ensures Tally(p, nodes, g, now).longUnregistered == Tally(p, nodes, g, now).unregistered == 0
  {
    if nodes != [] {
      TallyPartitions(p, nodes[..|nodes| - 1], g, now);
    }
  }

  lemma {:induction false} TallyAllPartitions(nodes: seq<KubeNode>, now: int)
    ensures TallyAll(nodes, now).Partitioned() && TallyAll(nodes, now).registered == |nodes|
    ensures TallyAll(nodes, now).longUnregistered == TallyAll(nodes, now).unregistered == 0
  {
    if nodes != [] {
      TallyAllPartitions(nodes[..|nodes| - 1], now);
    }
  }

  /** In every group each registered node is in exactly one class. */
  ghost predicate AllPartitioned(readiness: map<string, Readiness>) {
    forall g :: g in readiness ==> readiness[g].Partitioned()
  }

  lemma TalliesPartition(p: Provider, nodes: seq<KubeNode>, now: int, groups: set<string>)
    ensures AllPartitioned(TalliesOf(p, nodes, now, groups))
  {
    forall g | g in groups ensures Tally(p, nodes, g, now).Partitioned() {
      TallyPartitions(p, nodes, g, now);
    }
  }

  lemma WaitingKeepsPartition(p: Provider, base: map<string, Readiness>, since: map<string, int>, limit: int, now: int,
                              g: string)
    requires GroupReadiness(base, g).Partitioned()
    ensures GroupReadiness(WithWaiting(p, base, since, limit, now), g).Partitioned()
  {
    WaitingKeepsClasses(p, base, since, limit, now, g);
    SameClassesPartition(GroupReadiness(base, g), GroupReadiness(WithWaiting(p, base, since, limit, now), g));
  }

  predicate SameClasses(a: Readiness, b: Readiness) {
    && a.registered == b.registered && a.deleted == b.deleted && a.longNotStarted == b.longNotStarted
    && a.notStarted == b.notStarted && a.ready == b.ready && a.unready == b.unready
  }

  lemma SameClassesPartition(a: Readiness, b: Readiness)
    requires SameClasses(a, b) && a.Partitioned()
    ensures b.Partitioned()
  {
  }

  /** Counting in what is waiting changes no class. */
  lemma WaitingKeepsClasses(p: Provider, base: map<string, Readiness>, since: map<string, int>, limit: int, now: int,
                            g: string)
    ensures SameClasses(GroupReadiness(base, g), GroupReadiness(WithWaiting(p, base, since, limit, now), g))
  {
    if g in WithWaiting(p, base, since, limit, now) {
      assert WithWaiting(p, base, since, limit, now)[g] == WaitingReadiness(p, base, since, limit, now, g);
    }
  }

  lemma PartitionedMeansProvisioned(r: Readiness)
    requires r.Partitioned()
    ensures r.Provisioned() >= 0
  {
  }

  lemma GroupPartitioned(readiness: map<string, Readiness>, g: string)
    requires AllPartitioned(readiness)
    ensures GroupReadiness(readiness, g).Partitioned()
  {
  }

  /** Each registered node is in exactly one readiness class, so a group never has fewer than 0 provisioned nodes. */
  lemma ReadinessPartitions(p: Provider, nodes: seq<KubeNode>, since: map<string, int>, limit: int, now: int, g: string)
    ensures GroupReadiness(ReadinessOf(p, nodes, since, limit, now), g).Partitioned()
    ensures GroupReadiness(ReadinessOf(p, nodes, since, limit, now), g).Provisioned() >= 0
  {
    var base := RegisteredReadiness(p, nodes, now);
    TalliesPartition(p, nodes, now, GroupsOf(p, nodes));
    GroupPartitioned(base, g);
    WaitingKeepsPartition(p, base, since, limit, now, g);
    PartitionedMeansProvisioned(GroupReadiness(WithWaiting(p, base, since, limit, now), g));
  }

  // ----- acceptable ranges

  function CountDeletions(downs: seq<ScaleDownRequest>, g: string): nat {
    if downs == [] then 0
    else CountDeletions(downs[..|downs| - 1], g) + (if downs[|downs| - 1].group == g then 1 else 0)
  }

  function DeletionGroups(downs: seq<ScaleDownRequest>): set<string> {
    set d | d in downs :: d.group
  }

  /** The target size of a listed group; a group that is not listed counts as empty. */
  function Target(groups: seq<string>, targets: map<string, int>, g: string): int {
    if g in groups && g in targets then targets[g] else 0
  }

  function RangeOf(groups: seq<string>, targets: map<string, int>, readiness: map<string, Readiness>,
                   ups: map<string, ScaleUpRequest>, downs: seq<ScaleDownRequest>, g: string): AcceptableRange
  {
    var size := Target(groups, targets, g);
    AcceptableRange(
      size - (if g in groups then GroupReadiness(readiness, g).longUnregistered else 0) - (if g in ups
          then ups[g].increase else 0),
      size + CountDeletions(downs, g),
      size)
  }

  function RangesOf(groups: seq<string>, targets: map<string, int>, readiness: map<string, Readiness>,
                    ups: map<string, ScaleUpRequest>, downs: seq<ScaleDownRequest>): map<string, AcceptableRange>
  {
    map g | g in (set x | x in groups) + ups.Keys + DeletionGroups(downs) ::
      RangeOf(groups, targets, readiness, ups, downs, g)
  }

  /** `downs` without the requests that have reached their expected time. */
  function Unexpired(downs: seq<ScaleDownRequest>, now: int): seq<ScaleDownRequest> {
    if downs == [] then []
    else
      var before := Unexpired(downs[..|downs| - 1], now);
      var last := downs[|downs| - 1];
      if last.expectedDeleteTime > now then before + [last] else before
  }

  lemma {:induction false} UnexpiredExpireLater(downs: seq<ScaleDownRequest>, now: int)
    ensures forall d :: d in Unexpired(downs, now) <==> d in downs && d.expectedDeleteTime > now
  {
    if downs != [] {
      var n := |downs| - 1;
      UnexpiredExpireLater(downs[..n], now);
      assert downs == downs[..n] + [downs[n]];
    }
  }
}
