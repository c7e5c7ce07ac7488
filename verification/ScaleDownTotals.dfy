/**
 * The totals that the scale-down limits are computed from (core/scale_down.go), and what a bulk
 * deletion within those limits leaves in the cluster.
 */
module ScaleDownTotals {
  import opened ScaleDownLimits
  import opened Wrappers

  datatype Gpus = Gpus(kind: string, count: nat)

  /**
   * A node as the totals see it. The group lookup may fail; a node may be in no group; and its GPUs
   * may be unreadable.
   */
  datatype Machine = Machine(cores: nat, memory: nat, beingDeleted: bool, group: Result<Option<string>>,
                             gpus: Option<Gpus>)

  /** How much of resource `r` the node has. */
  function Holds(m: Machine, r: string): nat {
    if r == CORES then m.cores
    else if r == MEMORY then m.memory
    else if m.gpus.Some? && m.gpus.value.kind == r then m.gpus.value.count
    else 0
  }

  function Counted(m: Machine, r: string): nat {
    if m.beingDeleted then 0 else Holds(m, r)
  }

  /** What the nodes that are not being deleted have together. */
  function TotalIn(nodes: seq<string>, machine: string -> Machine, r: string): nat {
    if nodes == [] then 0 else TotalIn(nodes[..|nodes| - 1], machine, r) + Counted(machine(nodes[|nodes| - 1]), r)
  }

  method CalculateCoresMemoryTotal(nodes: seq<string>, machine: string -> Machine) returns (cores: int, memory: int)
    ensures cores == TotalIn(nodes, machine, CORES) && memory == TotalIn(nodes, machine, MEMORY)
  {
    cores, memory := 0, 0;
    for k := 0 to |nodes|
      invariant cores == TotalIn(nodes[..k], machine, CORES) && memory == TotalIn(nodes[..k], machine, MEMORY)
    {
      assert nodes[..k + 1][..k] == nodes[..k];
      var m := machine(nodes[k]);
      if m.beingDeleted {
        continue;
      }
      cores, memory := cores + m.cores, memory + m.memory;
    }
    assert nodes[..|nodes|] == nodes;
  }

  // ----- GPUs: the first node of a group speaks for all of them

  datatype Scan = Scan(cache: map<string, Gpus>, totals: map<string, int>)

  function WithGpus(totals: map<string, int>, gpus: Gpus): map<string, int> {
    if gpus.kind == "" || gpus.count == 0 then totals
    else totals[gpus.kind := (if gpus.kind in totals then totals[gpus.kind] else 0) + gpus.count]
  }

  function ScanOne(scan: Scan, m: Machine): Option<Scan> {
    if m.beingDeleted then Some(scan)
    else if m.group.Failure? then None
    else
      match m.group.value
      case Some(g) =>
        if g in scan.cache then Some(scan.(totals := WithGpus(scan.totals, scan.cache[g])))
        else if m.gpus.None? then None
        else Some(Scan(scan.cache[g := m.gpus.value], WithGpus(scan.totals, m.gpus.value)))
      case None => if m.gpus.None? then None else Some(scan.(totals := WithGpus(scan.totals, m.gpus.value)))
  }

  function ScanAll(nodes: seq<string>, machine: string -> Machine): Option<Scan> {
    if nodes == [] then Some(Scan(map[], map[]))
    else
      var before := ScanAll(nodes[..|nodes| - 1], machine);
      if before.None? then None else ScanOne(before.value, machine(nodes[|nodes| - 1]))
  }

  lemma {:induction false} ScanFails(nodes: seq<string>, machine: string -> Machine, k: nat)
    requires k <= |nodes| && ScanAll(nodes[..k], machine).None?
    ensures ScanAll(nodes, machine).None?
    decreases |nodes| - k
  {
    if k < |nodes| {
      assert nodes[..k + 1][..k] == nodes[..k];
      ScanFails(nodes, machine, k + 1);
    } else {
      assert nodes[..k] == nodes;
    }
  }

  function TotalsOf(scan: Option<Scan>): Option<map<string, int>> {
    if scan.None? then None else Some(scan.value.totals)
  }

  method CalculateGpusTotal(nodes: seq<string>, machine: string -> Machine) returns (totals: Option<map<string, int>>)
    ensures totals == TotalsOf(ScanAll(nodes, machine))
  {
    var result: map<string, int> := map[];
    var ngCache: map<string, Gpus> := map[];
    for k := 0 to |nodes|
      invariant ScanAll(nodes[..k], machine) == Some(Scan(ngCache, result))
    {
      assert nodes[..k + 1][..k] == nodes[..k];
      var m := machine(nodes[k]);
      if m.beingDeleted {
        continue;
      }
      if m.group.Failure? {
        ScanFails(nodes, machine, k + 1);
        return None;
      }
      var gpus := Gpus("", 0);
      if m.group.value.Some? && m.group.value.value in ngCache {
        gpus := ngCache[m.group.value.value];
      } else {
        if m.gpus.None? {
          ScanFails(nodes, machine, k + 1);
          return None;
        }
        gpus := m.gpus.value;
        if m.group.value.Some? {
          ngCache := ngCache[m.group.value.value := gpus];
        }
      }
      if gpus.kind == "" || gpus.count == 0 {
        continue;
      }
      result := result[gpus.kind := (if gpus.kind in result then result[gpus.kind] else 0) + gpus.count];
    }
    assert nodes[..|nodes|] == nodes;
    totals := Some(result);
  }

  /** Two counted nodes of one group have the same GPUs. */
  ghost predicate Uniform(nodes: seq<string>, machine: string -> Machine) {
    forall a, b :: a in nodes && b in nodes && !machine(a).beingDeleted && !machine(b).beingDeleted
                   && machine(a).group == machine(b).group && machine(a).group.Success? && machine(a).group.value.Some?
                   ==> machine(a).gpus == machine(b).gpus
  }

  /** What the cache says of a group is what each of its nodes has. */
  ghost predicate CacheIsRight(nodes: seq<string>, machine: string -> Machine, cache: map<string, Gpus>) {
    forall g :: g in cache ==> exists n :: n in nodes && Speaks(machine, n, g, cache)
  }

  /** Node `n` is counted in group `g`, and has the GPUs that the cache gives for it. */
  predicate Speaks(machine: string -> Machine, n: string, g: string, cache: map<string, Gpus>)
    requires g in cache
  {
    !machine(n).beingDeleted && machine(n).group == Success(Some(g)) && machine(n).gpus == Some(cache[g])
  }

  lemma CacheGrows(nodes: seq<string>, n: string, machine: string -> Machine, scan: Scan, after: Scan)
    requires CacheIsRight(nodes, machine, scan.cache) && ScanOne(scan, machine(n)) == Some(after)
    ensures CacheIsRight(nodes + [n], machine, after.cache)
  {
    forall g | g in after.cache ensures exists x :: x in nodes + [n] && Speaks(machine, x, g, after.cache) {
      if g in scan.cache && after.cache[g] == scan.cache[g] {
        var x :| x in nodes && Speaks(machine, x, g, scan.cache);
        assert x in nodes + [n] && Speaks(machine, x, g, after.cache);
      } else {
        assert n in nodes + [n] && Speaks(machine, n, g, after.cache);
      }
    }
  }

  function GpuTotal(totals: map<string, int>, r: string): int {
    if r in totals then totals[r] else 0
  }

  lemma OneMoreMachine(nodes: seq<string>, n: string, machine: string -> Machine, scan: Scan, after: Scan, r: string)
    requires Uniform(nodes + [n], machine) && r !in {"", CORES, MEMORY}
    requires CacheIsRight(nodes, machine, scan.cache) && ScanOne(scan, machine(n)) == Some(after)
    ensures CacheIsRight(nodes + [n], machine, after.cache)
    ensures GpuTotal(after.totals, r) == GpuTotal(scan.totals, r) + Counted(machine(n), r)
  {
    var m := machine(n);
    if !m.beingDeleted && m.group.value.Some? && m.group.value.value in scan.cache {
      var b :| b in nodes && Speaks(machine, b, m.group.value.value, scan.cache);
      assert n in nodes + [n] && b in nodes + [n];
      assert m.gpus == machine(b).gpus;
    }
    CacheGrows(nodes, n, machine, scan, after);
  }

  /** If the nodes of a group are alike, the GPU totals are the sums over all counted nodes. */
  lemma {:induction false} GpuTotalsAreSums(nodes: seq<string>, machine: string -> Machine, r: string)
    requires Uniform(nodes, machine) && ScanAll(nodes, machine).Some? && r !in {"", CORES, MEMORY}
    ensures CacheIsRight(nodes, machine, ScanAll(nodes, machine).value.cache)
    ensures GpuTotal(ScanAll(nodes, machine).value.totals, r) == TotalIn(nodes, machine, r)
  {
    if nodes != [] {
      var before, n := nodes[..|nodes| - 1], nodes[|nodes| - 1];
      assert nodes == before + [n];
      GpuTotalsAreSums(before, machine, r);
      OneMoreMachine(before, n, machine, ScanAll(before, machine).value, ScanAll(nodes, machine).value, r);
    }
  }

  // ----- what is left

  predicate IsGpuResource(r: string) {
    r != CORES && r != MEMORY
  }

  /** What goes with a node; its GPUs count if some limited resource is a GPU type. */
  function DeltaOf(m: Machine, resources: set<string>): Option<Delta> {
    var delta := map[CORES := m.cores, MEMORY := m.memory];
    if !exists r :: r in resources && IsGpuResource(r) then Some(delta)
    else if m.gpus.None? then None
    else Some(delta[m.gpus.value.kind := m.gpus.value.count])
  }

  /** The provider takes what a node's deletion frees from the node. */
  ghost predicate Reads(p: Provider, machine: string -> Machine, resources: set<string>) {
    && (forall n :: p.delta(n) == DeltaOf(machine(n), resources))
    && (forall n :: machine(n).gpus.Some? ==> IsGpuResource(machine(n).gpus.value.kind))
  }

  ghost predicate Distinct(nodes: seq<string>) {
    forall i, j :: 0 <= i < j < |nodes| ==> nodes[i] != nodes[j]
  }

  /** The nodes without the deleted ones. */
  function Rest(nodes: seq<string>, deleted: seq<string>): seq<string> {
    if nodes == [] then []
    else Rest(nodes[..|nodes| - 1], deleted) + (if nodes[|nodes| - 1] in deleted then [] else [nodes[|nodes| - 1]])
  }

  function Left(nodes: seq<string>, deleted: seq<string>, machine: string -> Machine, r: string): nat {
    TotalIn(Rest(nodes, deleted), machine, r)
  }

  lemma LeftSnoc(nodes: seq<string>, n: string, deleted: seq<string>, machine: string -> Machine, r: string)
    ensures Left(nodes + [n], deleted, machine, r) ==
            Left(nodes, deleted, machine, r) + (if n in deleted then 0 else Counted(machine(n), r))
  {
    assert (nodes + [n])[..|nodes|] == nodes;
    var rest := Rest(nodes, deleted);
    assert (rest + [n])[..|rest|] == rest && rest + [] == rest;
  }

  /** Deleting one more node takes at most what it has. */
  lemma {:induction false} OneMoreDeleted(nodes: seq<string>, deleted: seq<string>, x: string,
                                          machine: string -> Machine, r: string)
    requires Distinct(nodes)
    ensures Left(nodes, deleted, machine, r) <=
            Left(nodes, deleted + [x], machine, r) + (if x in nodes then Holds(machine(x), r) else 0)
  {
    if nodes != [] {
      var before, n := nodes[..|nodes| - 1], nodes[|nodes| - 1];
      OneMoreDeleted(before, deleted, x, machine, r);
      assert nodes == before + [n];
      LeftSnoc(before, n, deleted, machine, r);
      LeftSnoc(before, n, deleted + [x], machine, r);
      assert n == x ==> x !in before;
    }
  }

  lemma {:induction false} NothingDeleted(nodes: seq<string>)
    ensures Rest(nodes, []) == nodes
  {
    if nodes != [] {
      NothingDeleted(nodes[..|nodes| - 1]);
    }
  }

  /** What is missing afterwards is at most what the deleted nodes took. */
  lemma {:induction false} TakenCovers(nodes: seq<string>, deleted: seq<string>, p: Provider,
                                       machine: string -> Machine, r: string)
    requires Distinct(nodes) && forall n :: n in deleted ==> Share(p, n, r) == Holds(machine(n), r)
    ensures TotalIn(nodes, machine, r) <= Left(nodes, deleted, machine, r) + Taken(p, deleted, r)
  {
    if deleted == [] {
      NothingDeleted(nodes);
    } else {
      var before, x := deleted[..|deleted| - 1], deleted[|deleted| - 1];
      assert deleted == before + [x];
      TakenCovers(nodes, before, p, machine, r);
      OneMoreDeleted(nodes, before, x, machine, r);
    }
  }

  lemma {:induction false} ChosenAreReadable(p: Provider, limits: Limits, nodes: seq<string>, n: string)
    ensures n in ConsiderAll(p, limits, nodes).chosen ==> p.delta(n).Some?
  {
    if nodes != [] {
      ChosenAreReadable(p, limits, nodes[..|nodes| - 1], n);
    }
  }

  lemma SharesAreHoldings(p: Provider, limits: Limits, nodes: seq<string>, max: nat, machine: string -> Machine,
                          r: string)
    requires Reads(p, machine, limits.Keys) && r in limits
    ensures NonNegative(p)
    ensures forall n :: n in Bulk(p, limits, nodes, max) ==> Share(p, n, r) == Holds(machine(n), r)
  {
    forall n, q ensures Share(p, n, q) >= 0 {
      assert p.delta(n) == DeltaOf(machine(n), limits.Keys);
    }
    forall n | n in Bulk(p, limits, nodes, max) ensures Share(p, n, r) == Holds(machine(n), r) {
      ChosenAreReadable(p, limits, nodes, n);
      assert p.delta(n) == DeltaOf(machine(n), limits.Keys);
    }
  }

  /** The totals that limits are computed from. */
  function ClusterTotals(nodes: seq<string>, machine: string -> Machine): Totals {
    Totals(TotalIn(nodes, machine, CORES), TotalIn(nodes, machine, MEMORY), TotalsOf(ScanAll(nodes, machine)))
  }

  /** No more of GPU type `r` is counted than the counted nodes have, if the count succeeds. */
  predicate NotOvercounted(nodes: seq<string>, machine: string -> Machine, r: string) {
    var scan := ScanAll(nodes, machine);
    scan.Some? ==> GpuTotal(scan.value.totals, r) <= TotalIn(nodes, machine, r)
  }

  /** The bulk deletion leaves at least the configured minimum of `r`, or else all there was of it. */
  ghost predicate Keeps(nodes: seq<string>, machine: string -> Machine, r: string, min: int, deleted: seq<string>) {
    var all := TotalIn(nodes, machine, r);
    Left(nodes, deleted, machine, r) >= if all < min then all else min
  }

  /** The limits are computed from the nodes of the cluster, and the provider reads the same nodes. */
  ghost predicate LimitsFrom(nodes: seq<string>, machine: string -> Machine, r: string, p: Provider,
                             resources: seq<string>, min: string -> int, limits: Limits)
  {
    && Reads(p, machine, limits.Keys) && r in limits
    && AreLeft(limits, resources, min, IsGpuResource, ClusterTotals(nodes, machine))
  }

  /**
   * With the limits computed from the nodes of the cluster, a bulk deletion leaves at least the
   * configured minimum of each limited resource, or else all there was of it. For GPUs this takes that
   * no more is counted than there is.
   */
  lemma BulkKeepsMinimums(p: Provider, machine: string -> Machine, nodes: seq<string>, resources: seq<string>,
                          min: string -> int, limits: Limits, candidates: seq<string>, max: nat, r: string)
    requires Distinct(nodes) && LimitsFrom(nodes, machine, r, p, resources, min, limits)
    requires IsGpuResource(r) ==> NotOvercounted(nodes, machine, r)
    ensures Keeps(nodes, machine, r, min(r), Bulk(p, limits, candidates, max))
  {
    SharesAreHoldings(p, limits, candidates, max, machine, r);
    TakenCovers(nodes, Bulk(p, limits, candidates, max), p, machine, r);
    BulkRespectsAll(p, limits, candidates, max, "", r);
  }

  // ----- the condition for GPUs is exact

  /** GPUs are counted only where some counted node has them. */
  lemma {:induction false} CountedSomewhere(nodes: seq<string>, machine: string -> Machine, r: string)
    requires ScanAll(nodes, machine).Some? && IsGpuResource(r)
    ensures CacheIsRight(nodes, machine, ScanAll(nodes, machine).value.cache)
    ensures GpuTotal(ScanAll(nodes, machine).value.totals, r) > 0 ==> r != "" && exists n ::
              HasSome(nodes, machine, r, n)
  {
    if nodes != [] {
      var before, n := nodes[..|nodes| - 1], nodes[|nodes| - 1];
      assert nodes == before + [n];
      CountedSomewhere(before, machine, r);
      CacheGrows(before, n, machine, ScanAll(before, machine).value, ScanAll(nodes, machine).value);
      CountGrows(before, n, machine, ScanAll(before, machine).value, ScanAll(nodes, machine).value, r);
    }
  }

  predicate HasSome(nodes: seq<string>, machine: string -> Machine, r: string, n: string) {
    n in nodes && Counted(machine(n), r) > 0
  }

  /** What one more machine adds to the count, it or an earlier one has. */
  lemma CountGrows(nodes: seq<string>, n: string, machine: string -> Machine, scan: Scan, after: Scan, r: string)
    requires CacheIsRight(nodes, machine, scan.cache) && ScanOne(scan, machine(n)) == Some(after) && IsGpuResource(r)
    requires GpuTotal(scan.totals, r) > 0 ==> r != "" && exists x :: HasSome(nodes, machine, r, x)
    ensures GpuTotal(after.totals, r) > 0 ==> r != "" && exists x :: HasSome(nodes + [n], machine, r, x)
  {
    var m := machine(n);
    if GpuTotal(scan.totals, r) > 0 {
      var x :| HasSome(nodes, machine, r, x);
      assert HasSome(nodes + [n], machine, r, x);
    } else if GpuTotal(after.totals, r) > 0 {
      if m.group.value.Some? && m.group.value.value in scan.cache {
        var b :| b in nodes && Speaks(machine, b, m.group.value.value, scan.cache);
        assert HasSome(nodes + [n], machine, r, b);
      } else {
        assert HasSome(nodes + [n], machine, r, n);
      }
    }
  }

  /** A provider that lets one node go. */
  function Lenient(machine: string -> Machine, r: string): Provider {
    Provider(n => Some("group"), g => Some(2), g => 0, n => DeltaOf(machine(n), {r}))
  }

  lemma LenientDelta(machine: string -> Machine, r: string, x: string)
    requires IsGpuResource(r) && Holds(machine(x), r) > 0
    ensures
      var m := machine(x);
      Lenient(machine, r).delta(x) == Some(map[CORES := m.cores, MEMORY := m.memory][r := m.gpus.value.count])
  {
    var resources := {r};
    assert r in resources;
  }

  lemma LenientBulk(machine: string -> Machine, r: string, x: string)
    requires IsGpuResource(r) && Holds(machine(x), r) > 0
    ensures Bulk(Lenient(machine, r), map[r := Holds(machine(x), r)], [x], 1) == [x]
  {
    LenientDelta(machine, r, x);
    OneIsTaken(Lenient(machine, r), map[r := Holds(machine(x), r)], x, "group");
  }

  /** A single node within the limits is taken if its group can spare one. */
  lemma OneIsTaken(p: Provider, limits: Limits, x: string, g: string)
    requires p.groupOf(x) == Some(g) && p.targetSize(g).Some? && Spare(p, g) > 0
    requires p.delta(x).Some? && WithinLimits(limits, p.delta(x).value)
    ensures Bulk(p, limits, [x], 1) == [x]
  {
    assert [x][..0] == [] && [x][..1] == [x] && [] + [x] == [x];
    assert ConsiderAll(p, limits, [x]).chosen == [x];
  }

  /** Deleting one node takes just what it has. */
  lemma {:induction false} OneDeleted(nodes: seq<string>, x: string, machine: string -> Machine, r: string)
    requires Distinct(nodes)
    ensures Left(nodes, [x], machine, r) ==
            TotalIn(nodes, machine, r) - (if x in nodes then Counted(machine(x), r) else 0)
  {
    if nodes != [] {
      var before, n := nodes[..|nodes| - 1], nodes[|nodes| - 1];
      OneDeleted(before, x, machine, r);
      assert nodes == before + [n];
      LeftSnoc(before, n, [x], machine, r);
      assert n == x ==> x !in before;
    }
  }

  /** The minimum that leaves a limit of `left`. */
  lemma LimitOf(nodes: seq<string>, machine: string -> Machine, r: string, left: nat, min: int)
    requires IsGpuResource(r) && ScanAll(nodes, machine).Some? && 0 < min
    requires GpuTotal(ScanAll(nodes, machine).value.totals, r) == min + left && left > 0
    requires forall n :: machine(n).gpus.Some? ==> IsGpuResource(machine(n).gpus.value.kind)
    ensures LimitsFrom(nodes, machine, r, Lenient(machine, r), [r], q => min, map[r := left])
  {
    assert TotalOf(ClusterTotals(nodes, machine), r) == min + left;
    assert map[r := left].Keys == {r};
  }

  /** If too much is counted, deleting one node that has some may go below a minimum. */
  lemma OvercountBreaks(nodes: seq<string>, machine: string -> Machine, r: string)
    returns (min: int, limits: Limits, x: string)
    requires Distinct(nodes) && IsGpuResource(r) && !NotOvercounted(nodes, machine, r)
    requires forall n :: machine(n).gpus.Some? ==> IsGpuResource(machine(n).gpus.value.kind)
    ensures LimitsFrom(nodes, machine, r, Lenient(machine, r), [r], q => min, limits)
    ensures !Keeps(nodes, machine, r, min, Bulk(Lenient(machine, r), limits, [x], 1))
  {
    var counted := GpuTotal(ScanAll(nodes, machine).value.totals, r);
    CountedSomewhere(nodes, machine, r);
    x :| HasSome(nodes, machine, r, x);
    var has := Holds(machine(x), r);
    HasAtMostAll(nodes, x, machine, r);
    min, limits := counted - has, map[r := has];
    LimitOf(nodes, machine, r, has, min);
    LenientBulk(machine, r, x);
    OneDeleted(nodes, x, machine, r);
  }

  lemma HasAtMostAll(nodes: seq<string>, x: string, machine: string -> Machine, r: string)
    requires Distinct(nodes) && x in nodes
    ensures Counted(machine(x), r) <= TotalIn(nodes, machine, r)
  {
    OneDeleted(nodes, x, machine, r);
  }

  /**
   * Every bulk deletion keeps every minimum of a GPU type, exactly if no more of it is counted than
   * there is: whatever the provider answers, the limits, the candidates and the number of deletions.
   */
  lemma GpuMinimumsKeptIff(nodes: seq<string>, machine: string -> Machine, r: string)
    requires Distinct(nodes) && IsGpuResource(r)
    requires forall n :: machine(n).gpus.Some? ==> IsGpuResource(machine(n).gpus.value.kind)
    ensures NotOvercounted(nodes, machine, r) <==>
            forall p, resources, min, limits, candidates, max: nat ::
              LimitsFrom(nodes, machine, r, p, resources, min, limits) ==>
                Keeps(nodes, machine, r, min(r), Bulk(p, limits, candidates, max))
  {
    if NotOvercounted(nodes, machine, r) {
      forall p, resources, min, limits, candidates, max: nat | LimitsFrom(nodes, machine, r, p, resources, min, limits)
        ensures Keeps(nodes, machine, r, min(r), Bulk(p, limits, candidates, max))
      {
        BulkKeepsMinimums(p, machine, nodes, resources, min, limits, candidates, max, r);
      }
    } else {
      var min, limits, x := OvercountBreaks(nodes, machine, r);
      var least: string -> int := q => min;
      assert LimitsFrom(nodes, machine, r, Lenient(machine, r), [r], least, limits) && least(r) == min;
    }
  }

  /** In particular they are kept if the nodes of each group are alike. */
  lemma AlikeNodesKeepMinimums(nodes: seq<string>, machine: string -> Machine, r: string)
    requires Uniform(nodes, machine) && IsGpuResource(r)
    ensures NotOvercounted(nodes, machine, r)
  {
    if ScanAll(nodes, machine).Some? {
      if r != "" {
        GpuTotalsAreSums(nodes, machine, r);
      } else {
        CountedSomewhere(nodes, machine, r);
      }
    }
  }

  /** Two nodes of one group, the first with four GPUs and the second with one. */
  function Uneven(kind: string): string -> Machine {
    n => Machine(1, 1, false, Success(Some("group")), Some(Gpus(kind, if n == "a" then 4 else 1)))
  }

  lemma UnevenTotals(kind: string)
    requires IsGpuResource(kind) && kind != ""
    ensures TotalsOf(ScanAll(["a", "b"], Uneven(kind))) == Some(map[kind := 8])
    ensures TotalIn(["a", "b"], Uneven(kind), kind) == 5 && TotalIn(["b"], Uneven(kind), kind) == 1
  {
    var m := Uneven(kind);
    assert ["a", "b"][..1] == ["a"] && ["a"][..0] == [] && ["b"][..0] == [];
    assert "a"[0] != "b"[0];
    assert Holds(m("a"), kind) == 4 && Holds(m("b"), kind) == 1;
    assert TotalIn(["a"], m, kind) == 4;
    assert TotalIn(["b"], m, kind) == TotalIn([], m, kind) + 1;
    assert TotalIn(["a", "b"], m, kind) == TotalIn(["a"], m, kind) + 1;
    assert ScanAll(["a"], m) == Some(Scan(map["group" := Gpus(kind, 4)], map[kind := 4]));
    assert ScanAll(["a", "b"], m).value.totals == map[kind := 4][kind := 8] == map[kind := 8];
  }

  lemma UnevenRest()
    ensures Rest(["a", "b"], ["a"]) == ["b"]
  {
    assert ["a", "b"][..1] == ["a"] && ["a"][..0] == [];
    assert Rest(["a"], ["a"]) == [];
  }

  lemma UnevenLimits(kind: string)
    requires IsGpuResource(kind) && kind != ""
    ensures AreLeft(map[kind := 4], [kind], r => 4, IsGpuResource, ClusterTotals(["a", "b"], Uneven(kind)))
  {
    var totals := ClusterTotals(["a", "b"], Uneven(kind));
    UnevenTotals(kind);
    assert TotalOf(totals, kind) == 8;
  }

  /**
   * More may be counted, as the first node of a group may speak for more GPUs than the others have: four and
   * one are counted as eight, so that a minimum of four allows to delete the four.
   */
  lemma GpuMinimumMayBreak(kind: string)
    requires IsGpuResource(kind) && kind != ""
    ensures
      var machine, limits := Uneven(kind), map[kind := 4];
      && AreLeft(limits, [kind], r => 4, IsGpuResource, ClusterTotals(["a", "b"], machine))
      && Reads(Lenient(machine, kind), machine, limits.Keys)
      && (var deleted := Bulk(Lenient(machine, kind), limits, ["a"], 1);
          Left(["a", "b"], deleted, machine, kind) < 4 < TotalIn(["a", "b"], machine, kind))
  {
    UnevenLimits(kind);
    UnevenTotals(kind);
    UnevenRest();
    LenientBulk(Uneven(kind), kind, "a");
    assert map[kind := 4].Keys == {kind};
  }
}
