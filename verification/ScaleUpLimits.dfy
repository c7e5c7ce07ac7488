/** Capping a scale-up by cluster-wide resource limits (core/scale_up.go). */
module ScaleUpLimits {
  import opened Wrappers

  /** Stands for a limit that could not be read: the greatest 64-bit integer. */
  const LIMIT_UNKNOWN: int := 0x7fff_ffff_ffff_ffff

  type Limits = map<string, int>

  type Delta = map<string, int>

  function ComputeBelowMax(total: int, max: int): int {
    if total < max then max - total else 0
  }

  predicate NonNegative(m: map<string, int>) {
    forall r :: r in m ==> m[r] >= 0
  }

  predicate Exceeds(limits: Limits, delta: Delta, r: string) {
    r in delta && r in limits && delta[r] > 0 && (limits[r] == LIMIT_UNKNOWN || delta[r] > limits[r])
  }

  /** One node of the group fits within the limits. */
  predicate OneNodeFits(limits: Limits, delta: Delta) {
    forall r :: r in delta ==> !Exceeds(limits, delta, r)
  }

  method CheckDeltaWithinLimits(limits: Limits, delta: Delta) returns (exceeded: set<string>)
    ensures forall r :: r in exceeded <==> Exceeds(limits, delta, r)
    ensures exceeded == {} <==> OneNodeFits(limits, delta)
  {
    exceeded := {};
    var todo := delta.Keys;
    while todo != {}
      invariant todo <= delta.Keys
      invariant forall r :: r in exceeded <==> Exceeds(limits, delta, r) && r !in todo
    {
      var r :| r in todo;
      if r in limits && delta[r] > 0 && (limits[r] == LIMIT_UNKNOWN || delta[r] > limits[r]) {
        exceeded := exceeded + {r};
      }
      todo := todo - {r};
    }
  }

  // ----- the cap

  /** `n` nodes stay within the limit on `r`. */
  predicate NodesFit(limits: Limits, delta: Delta, r: string, n: int) {
    r in delta && r in limits ==> n * delta[r] <= limits[r]
  }

  predicate AllFit(limits: Limits, delta: Delta, rs: set<string>, n: int) {
    forall r :: r in rs ==> NodesFit(limits, delta, r, n)
  }

  /** `n` is the greatest number of nodes up to `request` that stays within the limits on `rs`. */
  ghost predicate Capped(limits: Limits, delta: Delta, rs: set<string>, request: int, n: int) {
    n <= request && AllFit(limits, delta, rs, n) && forall k :: n < k <= request ==> !AllFit(limits, delta, rs, k)
  }

  /** The limit on some resource of the node is unknown. */
  predicate SomeUnknown(limits: Limits, delta: Delta) {
    exists r :: r in delta && r in limits && limits[r] == LIMIT_UNKNOWN
  }

  datatype Cap = Nodes(n: int) | LimitReached | LimitUnknown

  lemma DivIsGreatest(limit: int, d: int, k: int)
    requires limit >= 0 && d > 0
    ensures k * d <= limit <==> k <= limit / d
  {
    if k <= limit / d {
      assert k * d <= (limit / d) * d;
    } else {
      assert k * d >= (limit / d + 1) * d;
    }
  }

  lemma FewerFit(limits: Limits, delta: Delta, rs: set<string>, n: int, k: int)
    requires NonNegative(delta) && k <= n && AllFit(limits, delta, rs, n)
    ensures AllFit(limits, delta, rs, k)
  {
    forall r | r in rs ensures NodesFit(limits, delta, r, k) {
      if r in delta && r in limits {
        assert NodesFit(limits, delta, r, n);
        assert k * delta[r] <= n * delta[r];
      }
    }
  }

  lemma CapOneMore(limits: Limits, delta: Delta, rs: set<string>, r: string, request: int, n: int)
    requires NonNegative(limits) && NonNegative(delta)
    requires r in delta && r in limits && Capped(limits, delta, rs, request, n) && n >= 0
    ensures
      var lowered := if n * delta[r] <= limits[r] then n else limits[r] / delta[r];
      lowered <= n && Capped(limits, delta, rs + {r}, request, lowered)
  {
    if n * delta[r] <= limits[r] {
      forall k | n < k <= request ensures !AllFit(limits, delta, rs + {r}, k) {
        assert !AllFit(limits, delta, rs, k);
      }
    } else {
      var lowered := limits[r] / delta[r];
      DivIsGreatest(limits[r], delta[r], n);
      DivIsGreatest(limits[r], delta[r], lowered);
      FewerFit(limits, delta, rs, n, lowered);
      forall k | lowered < k <= request ensures !AllFit(limits, delta, rs + {r}, k) {
        DivIsGreatest(limits[r], delta[r], k);
        assert !NodesFit(limits, delta, r, k);
      }
    }
  }

  lemma UnlimitedFits(limits: Limits, delta: Delta, rs: set<string>, r: string, request: int, n: int)
    requires r !in limits && Capped(limits, delta, rs, request, n)
    ensures Capped(limits, delta, rs + {r}, request, n)
  {
    forall k | n < k <= request ensures !AllFit(limits, delta, rs + {r}, k) {
      assert !AllFit(limits, delta, rs, k);
    }
  }

  /** Lowers the request until every limit holds; the resources are taken in any order. */
  method ApplyResourcesLimits(newNodes: int, limits: Limits, delta: Delta) returns (result: Cap)
    requires newNodes >= 1 && NonNegative(limits) && NonNegative(delta)
    ensures result.Nodes? ==> result.n >= 1 && Capped(limits, delta, delta.Keys, newNodes, result.n)
    ensures result.Nodes? <==> OneNodeFits(limits, delta) && !SomeUnknown(limits, delta)
  {
    var n := newNodes;
    var todo := delta.Keys;
    assert delta.Keys - todo == {};
    while todo != {}
      invariant todo <= delta.Keys && n >= 1
      invariant Capped(limits, delta, delta.Keys - todo, newNodes, n)
      invariant forall r :: r in delta.Keys - todo && r in limits ==> limits[r] != LIMIT_UNKNOWN
    {
      var r :| r in todo;
      ghost var done := delta.Keys - todo;
      todo := todo - {r};
      assert delta.Keys - todo == done + {r};
      if r in limits {
        if limits[r] == LIMIT_UNKNOWN {
          return LimitUnknown;
        }
        CapOneMore(limits, delta, done, r, newNodes, n);
        if n * delta[r] > limits[r] {
          n := limits[r] / delta[r];
          if n < 1 {
            DivIsGreatest(limits[r], delta[r], 1);
            assert Exceeds(limits, delta, r);
            return LimitReached;
          }
        }
      } else {
        UnlimitedFits(limits, delta, done, r, newNodes, n);
      }
    }
    assert delta.Keys - todo == delta.Keys;
    CappedMeansOneFits(limits, delta, newNodes, n);
    result := Nodes(n);
  }

  lemma CappedMeansOneFits(limits: Limits, delta: Delta, request: int, n: int)
    requires NonNegative(delta) && n >= 1 && Capped(limits, delta, delta.Keys, request, n)
    requires forall r :: r in delta && r in limits ==> limits[r] != LIMIT_UNKNOWN
    ensures OneNodeFits(limits, delta)
  {
    FewerFit(limits, delta, delta.Keys, n, 1);
    forall r | r in delta ensures !Exceeds(limits, delta, r) {
      assert NodesFit(limits, delta, r, 1);
    }
  }

  /** The cap is the same whatever the order: there is only one greatest number. */
  lemma CapIsUnique(limits: Limits, delta: Delta, request: int, n: int, k: int)
    requires Capped(limits, delta, delta.Keys, request, n) && Capped(limits, delta, delta.Keys, request, k)
    ensures n == k
  {
    assert AllFit(limits, delta, delta.Keys, n) && AllFit(limits, delta, delta.Keys, k);
  }

  /** The capped nodes keep the cluster within the configured maximum, or within what it already has. */
  lemma CapKeepsMaximum(limits: Limits, delta: Delta, request: int, n: int, r: string, total: int, max: int)
    requires Capped(limits, delta, delta.Keys, request, n)
    requires r in delta && r in limits && limits[r] == ComputeBelowMax(total, max)
    ensures total + n * delta[r] <= if total > max then total else max
  {
    assert NodesFit(limits, delta, r, n);
  }

  /**
   * The check beforehand does not make the cap's error branches unreachable: a node that needs none
   * of a resource with an unknown limit passes the check, and the cap still reports that limit.
   */
  lemma CheckedMayStillFail()
    ensures
      var limits: Limits, delta: Delta := map["gpu" := LIMIT_UNKNOWN], map["gpu" := 0];
      OneNodeFits(limits, delta) && SomeUnknown(limits, delta)
  {
    var limits: Limits, delta: Delta := map["gpu" := LIMIT_UNKNOWN], map["gpu" := 0];
    assert "gpu" in delta && "gpu" in limits && limits["gpu"] == LIMIT_UNKNOWN;
  }

  // ----- the limits

  const CORES := "cpu"
  const MEMORY := "memory"

  /** Cluster totals; any of them may be unavailable. */
  datatype Totals = Totals(coresAndMemory: Option<(int, int)>, gpus: Option<map<string, int>>)

  predicate IsCoresOrMemory(r: string) {
    r == CORES || r == MEMORY
  }

  /** What may still be added of a resource with maximum `max`. */
  function LeftFor(totals: Totals, r: string, max: int): int
    requires IsCoresOrMemory(r) ==> totals.coresAndMemory.Some?
  {
    if r == CORES then ComputeBelowMax(totals.coresAndMemory.value.0, max)
    else if r == MEMORY then ComputeBelowMax(totals.coresAndMemory.value.1, max)
    else if totals.gpus.None? then LIMIT_UNKNOWN
    else ComputeBelowMax(if r in totals.gpus.value then totals.gpus.value[r] else 0, max)
  }

  /**
   * Fails when a limited core or memory total is unavailable; a resource without a maximum reports the
   * greatest integer.
   */
  method ComputeResourcesLeftLimits(resources: seq<string>, max: string -> int, isGpu: string -> bool, totals: Totals)
    returns (result: Result<Limits>)
    ensures result.Failure? <==>
            totals.coresAndMemory.None? && exists r :: r in resources && max(r) > 0 && IsCoresOrMemory(r)
    ensures result.Success? ==> forall r :: r in result.value <==>
            r in resources && max(r) > 0 && (IsCoresOrMemory(r) || isGpu(r))
    ensures result.Success? ==> forall r :: r in result.value ==>
              (IsCoresOrMemory(r) ==> totals.coresAndMemory.Some?) && result.value[r] == LeftFor(totals, r, max(r))
    ensures result.Success? ==> NonNegative(result.value)
  {
    var limits: Limits := map[];
    for k := 0 to |resources|
      invariant totals.coresAndMemory.None? ==> forall r :: r in resources[..k] && max(r) > 0 ==> !IsCoresOrMemory(r)
      invariant forall r :: r in limits <==> r in resources[..k] && max(r) > 0 && (IsCoresOrMemory(r) || isGpu(r))
      invariant forall r :: r in limits ==>
                  (IsCoresOrMemory(r) ==> totals.coresAndMemory.Some?) && limits[r] == LeftFor(totals, r, max(r))
    {
      var resource := resources[k];
      assert resources[..k + 1] == resources[..k] + [resource];
      if max(resource) > 0 {
        if IsCoresOrMemory(resource) && totals.coresAndMemory.None? {
          return Failure;
        }
        if IsCoresOrMemory(resource) || isGpu(resource) {
          limits := limits[resource := LeftFor(totals, resource, max(resource))];
        }
      }
    }
    assert resources[..|resources|] == resources;
    return Success(limits);
  }

  /**
   * A resource with no maximum reports the greatest integer as its maximum, so what is left of it
   * reads as an unknown limit exactly when the cluster has none of the resource yet.
   */
  lemma NoMaximumReadsAsUnknown(total: int, max: int)
    requires 0 <= total && 0 < max <= LIMIT_UNKNOWN
    ensures ComputeBelowMax(total, max) == LIMIT_UNKNOWN <==> total == 0 && max == LIMIT_UNKNOWN
  {
  }
}
