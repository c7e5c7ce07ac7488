/** What the pod, namespace, node and cluster stages together do to a metric: nothing is lost or counted twice. */
module MetricConservation {
  import opened Aggregators
  import opened MetricSets
  import opened SumOver
  import opened Wrappers
  import PodAggregator

  /**
   * A batch as it comes from the sources: types are uniform, exactly the pods are kept under pod
   * keys, with their namespace in the labels, and no namespace has a set yet.
   */
  ghost predicate Scraped(sets: Sets, kinds: string -> ValueType) {
    && AllTyped(sets, kinds)
    && (forall k :: k in sets ==> (k.PodKey? <==> sets[k].setType == Some(PodSet)))
    && (forall k :: k in sets && k.PodKey? ==> sets[k].namespaceName == Some(k.namespace))
    && (forall k :: k in sets ==> !k.NamespaceKey? && sets[k].setType != Some(NamespaceSet))
  }

  /** The pods of a batch: those that have a set, and those that only have containers. */
  ghost function PodKeys(sets: Sets): set<Key> {
    (set k | k in sets && k.PodKey?) +
    (set k | k in sets && PodAggregator.PodOf(sets[k]).Some? :: PodAggregator.PodOf(sets[k]).value)
  }

  /** How much of metric `m` pod `t` uses: its own value, or else the sum over its containers. */
  ghost function PodAmount(sets: Sets, m: string, t: Key): real {
    if m in ValuesAt(sets, t) then Amount(ValuesAt(sets, t)[m])
    else Sum(Sources(sets, PodAggregator.PodOf, t, m, sets.Keys), AmountIn(sets, m))
  }

  ghost function PodAmounts(sets: Sets, m: string): Key -> real {
    t => PodAmount(sets, m, t)
  }

  function AmountOf(v: Option<Value>): real {
    if v.Some? then Amount(v.value) else 0.0
  }

  // ----- the regularity of each stage's input

  lemma ScrapedIsRegular(b0: Sets, kinds: string -> ValueType)
    requires Scraped(b0, kinds)
    ensures PodAggregator.PodRegular(b0, kinds)
  {
  }

  lemma PodStageIsScraped(b0: Sets, skipped: set<string>, kinds: string -> ValueType, b1: Sets)
    requires Scraped(b0, kinds) && PodAggregator.PodStage(b0, skipped, kinds, b1)
    ensures Scraped(b1, kinds)
  {
    forall k | k in b1 ensures Typed(b1[k].values, kinds) {
      forall m | m in b1[k].values ensures b1[k].values[m].kind == kinds(m) != OtherValue {
        assert PodAggregator.PodTotal(b0, skipped, kinds, k, m, Get(ValuesAt(b1, k), m));
      }
    }
  }

  lemma ScrapedIsNamespaceRegular(b1: Sets, kinds: string -> ValueType)
    requires Scraped(b1, kinds)
    ensures NamespaceRegular(b1, kinds)
  {
  }

  lemma NamespaceStageIsNodeRegular(b1: Sets, metrics: seq<string>, kinds: string -> ValueType, b2: Sets)
    requires Scraped(b1, kinds) && NamespaceStage(b1, metrics, kinds, b2)
    ensures NodeRegular(b2, kinds)
  {
    forall k | k in b2 ensures Typed(b2[k].values, kinds) {
      assert Column(b1, NamespaceOf, metrics, kinds, b1.Keys, k, ValuesAt(b1, k), ValuesAt(b2, k));
    }
  }

  lemma NodeStageIsTyped(b2: Sets, metrics: seq<string>, kinds: string -> ValueType, b3: Sets)
    requires NodeInvariant(b2, metrics, kinds, b2.Keys, b3)
    ensures AllTyped(b3, kinds)
  {
    forall k | k in b3 ensures Typed(b3[k].values, kinds) {
      assert Column(b2, NodeOf, metrics, kinds, b2.Keys, k, b2[k].values, b3[k].values);
    }
  }

  // ----- the sums, stage by stage

  /** After the pod stage every pod shows its amount. */
  lemma PodsShowAmounts(b0: Sets, skipped: set<string>, kinds: string -> ValueType, b1: Sets, m: string, t: Key)
    requires PodAggregator.PodStage(b0, skipped, kinds, b1) && m !in skipped
    ensures AmountOf(Get(ValuesAt(b1, t), m)) == PodAmount(b0, m, t)
  {
    assert PodAggregator.PodTotal(b0, skipped, kinds, t, m, Get(ValuesAt(b1, t), m));
    if m !in ValuesAt(b0, t) && Sources(b0, PodAggregator.PodOf, t, m, b0.Keys) == {} {
      assert Get(ValuesAt(b1, t), m) == None;
    }
  }

  lemma AmountInIs(sets: Sets, m: string, t: Key)
    ensures AmountIn(sets, m)(t) == AmountOf(Get(ValuesAt(sets, t), m))
  {
  }

  /** The keys of the sets of one type that have metric `m`. */
  ghost function Having(sets: Sets, setType: SetType, m: string): set<Key> {
    set k | k in sets && sets[k].setType == Some(setType) && m in sets[k].values
  }

  function NamespaceKeyOf(k: Key): Key {
    if k.PodKey? then NamespaceKey(k.namespace) else k
  }

  /** After the namespace stage, each namespace set shows the sum over its pods. */
  lemma NamespaceShowsPods(b1: Sets, metrics: seq<string>, kinds: string -> ValueType, b2: Sets, m: string, n: Key)
    requires Scraped(b1, kinds) && NamespaceStage(b1, metrics, kinds, b2) && Once(metrics, m) && n.NamespaceKey?
    ensures
      var pods := Fiber(Having(b1, PodSet, m), NamespaceKeyOf, n);
      && (m in ValuesAt(b2, n) <==> pods != {})
      && AmountOf(Get(ValuesAt(b2, n), m)) == Sum(pods, AmountIn(b1, m))
  {
    assert Column(b1, NamespaceOf, metrics, kinds, b1.Keys, n, ValuesAt(b1, n), ValuesAt(b2, n));
    assert Sources(b1, NamespaceOf, n, m, b1.Keys) == Fiber(Having(b1, PodSet, m), NamespaceKeyOf, n);
  }

  /** The namespace sets that have the metric are those of the pods that have it. */
  lemma NamespacesOfPods(b1: Sets, metrics: seq<string>, kinds: string -> ValueType, b2: Sets, m: string)
    requires Scraped(b1, kinds) && NamespaceStage(b1, metrics, kinds, b2) && Once(metrics, m)
    ensures forall k :: k in Having(b1, PodSet, m) ==> NamespaceKeyOf(k) in Having(b2, NamespaceSet, m)
    ensures forall n :: n in Having(b2, NamespaceSet, m) ==> n.NamespaceKey?
  {
    forall k | k in Having(b1, PodSet, m) ensures NamespaceKeyOf(k) in Having(b2, NamespaceSet, m) {
      NamespaceShowsPods(b1, metrics, kinds, b2, m, NamespaceKeyOf(k));
      assert k in Fiber(Having(b1, PodSet, m), NamespaceKeyOf, NamespaceKeyOf(k));
    }
    forall n | n in Having(b2, NamespaceSet, m) ensures n.NamespaceKey? {
      if n !in b1 {
        assert Fed(b1, NamespaceOf, b1.Keys, n);
      }
    }
  }

  /** The namespaces together hold what the pods hold. */
  lemma NamespacesHoldPods(b1: Sets, metrics: seq<string>, kinds: string -> ValueType, b2: Sets, m: string)
    requires Scraped(b1, kinds) && NamespaceStage(b1, metrics, kinds, b2) && Once(metrics, m)
    ensures Sum(Having(b2, NamespaceSet, m), AmountIn(b2, m)) == Sum(Having(b1, PodSet, m), AmountIn(b1, m))
    ensures Having(b2, NamespaceSet, m) == {} <==> Having(b1, PodSet, m) == {}
  {
    var pods, namespaces := Having(b1, PodSet, m), Having(b2, NamespaceSet, m);
    NamespacesOfPods(b1, metrics, kinds, b2, m);
    forall n | n in namespaces
      ensures AmountIn(b2, m)(n) == Sum(Fiber(pods, NamespaceKeyOf, n), AmountIn(b1, m))
              && Fiber(pods, NamespaceKeyOf, n) != {}
    {
      NamespaceShowsPods(b1, metrics, kinds, b2, m, n);
      AmountInIs(b2, m, n);
    }
    SumByGroups(pods, NamespaceKeyOf, namespaces, AmountIn(b1, m), AmountIn(b2, m));
    if namespaces != {} {
      var n :| n in namespaces;
      assert Fiber(pods, NamespaceKeyOf, n) <= pods;
    }
    if pods != {} {
      var k :| k in pods;
      assert NamespaceKeyOf(k) in namespaces;
    }
  }

  /** The node stage leaves the namespaces as they are. */
  lemma NodeStageKeepsNamespaces(b2: Sets, b3: Sets, m: string)
    requires OnlyValuesChanged(b2, b3, IsNode)
    requires forall n :: n in b2 && b2[n].setType == Some(NamespaceSet) ==> n.NamespaceKey?
    ensures Having(b3, NamespaceSet, m) == Having(b2, NamespaceSet, m)
    ensures Sum(Having(b3, NamespaceSet, m), AmountIn(b3, m)) == Sum(Having(b2, NamespaceSet, m), AmountIn(b2, m))
  {
    SumSame(Having(b2, NamespaceSet, m), AmountIn(b3, m), AmountIn(b2, m));
  }

  /** The pods that have the metric hold what all pods use. */
  lemma PodsHoldAmounts(b0: Sets, skipped: set<string>, kinds: string -> ValueType, b1: Sets, m: string)
    requires Scraped(b0, kinds) && PodAggregator.PodStage(b0, skipped, kinds, b1) && Scraped(b1, kinds) && m !in skipped
    ensures Having(b1, PodSet, m) <= PodKeys(b0)
    ensures Sum(Having(b1, PodSet, m), AmountIn(b1, m)) == Sum(PodKeys(b0), PodAmounts(b0, m))
  {
    forall t | t in PodKeys(b0) ensures AmountIn(b1, m)(t) == PodAmounts(b0, m)(t) && t in b1 && t.PodKey? {
      PodsShowAmounts(b0, skipped, kinds, b1, m, t);
      AmountInIs(b1, m, t);
    }
    assert Having(b1, PodSet, m) <= PodKeys(b0);
    SumSame(PodKeys(b0), AmountIn(b1, m), PodAmounts(b0, m));
    SumSupport(PodKeys(b0), Having(b1, PodSet, m), AmountIn(b1, m));
  }

  /** The cluster shows the sum over the namespaces. */
  lemma ClusterShowsNamespaces(b3: Sets, metrics: seq<string>, kinds: string -> ValueType, cluster: Values, m: string)
    requires Column(b3, ClusterOf, metrics, kinds, b3.Keys, ClusterKey, map[], cluster) && Once(metrics, m)
    ensures AmountOf(Get(cluster, m)) == Sum(Having(b3, NamespaceSet, m), AmountIn(b3, m))
    ensures m in cluster <==> Having(b3, NamespaceSet, m) != {}
  {
    assert Sources(b3, ClusterOf, ClusterKey, m, b3.Keys) == Having(b3, NamespaceSet, m);
  }

  /** The value of a metric in the cluster set. */
  ghost predicate ClusterHolds(b0: Sets, m: string, value: Option<Value>) {
    AmountOf(value) == Sum(PodKeys(b0), PodAmounts(b0, m))
  }

  /**
   * The cluster's value of a metric is the sum over all pods of the pod's own value or else the sum
   * over its containers. The node stage in between does not matter.
   */
  lemma ClusterHoldsPods(b0: Sets, skipped: set<string>, metrics: seq<string>, nodeMetrics: seq<string>,
                         kinds: string -> ValueType, b1: Sets, b2: Sets, b3: Sets, cluster: Values, m: string)
    requires Scraped(b0, kinds) && PodAggregator.PodStage(b0, skipped, kinds, b1)
             && NamespaceStage(b1, metrics, kinds, b2)
    requires NodeInvariant(b2, nodeMetrics, kinds, b2.Keys, b3)
    requires Column(b3, ClusterOf, metrics, kinds, b3.Keys, ClusterKey, map[], cluster)
    requires m !in skipped && Once(metrics, m)
    ensures ClusterHolds(b0, m, Get(cluster, m))
    ensures m in cluster <==> Having(b1, PodSet, m) != {}
  {
    PodStageIsScraped(b0, skipped, kinds, b1);
    PodsHoldAmounts(b0, skipped, kinds, b1, m);
    NamespacesHoldPods(b1, metrics, kinds, b2, m);
    NamespaceSetsAreKeyed(b1, metrics, kinds, b2);
    NodeStageKeepsNamespaces(b2, b3, m);
    ClusterShowsNamespaces(b3, metrics, kinds, cluster, m);
  }

  lemma NamespaceSetsAreKeyed(b1: Sets, metrics: seq<string>, kinds: string -> ValueType, b2: Sets)
    requires Scraped(b1, kinds) && NamespaceStage(b1, metrics, kinds, b2)
    ensures forall n :: n in b2 && b2[n].setType == Some(NamespaceSet) ==> n.NamespaceKey?
  {
    forall n | n in b2 && b2[n].setType == Some(NamespaceSet) ensures n.NamespaceKey? {
      if n !in b1 {
        assert Fed(b1, NamespaceOf, b1.Keys, n);
      }
    }
  }

  /** The four aggregators, one after the other. */
  method AggregateAll(batch: DataBatch, skippedMetrics: set<string>, metricsToAggregate: seq<string>,
                      metricsToAggregateForNode: seq<string>, ghost kinds: string -> ValueType)
    returns (ok: bool)
    modifies batch
    ensures Scraped(old(batch.metricSets), kinds) ==> ok && ClusterKey in batch.metricSets
    ensures Scraped(old(batch.metricSets), kinds) ==>
              forall m :: m !in skippedMetrics && Once(metricsToAggregate, m) ==>
                ClusterHolds(old(batch.metricSets), m, Get(ValuesAt(batch.metricSets, ClusterKey), m))
  {
    ghost var b0 := batch.metricSets;
    ok := PodAggregator.Process(batch, skippedMetrics, kinds);
    if !ok {
      Regular(b0, skippedMetrics, metricsToAggregate, kinds, b0, b0);
      return;
    }
    ghost var b1 := batch.metricSets;
    ok := NamespaceAggregator(batch, metricsToAggregate, kinds);
    Regular(b0, skippedMetrics, metricsToAggregate, kinds, b1, batch.metricSets);
    if !ok {
      return;
    }
    ghost var b2 := batch.metricSets;
    ok := NodeAggregator(batch, metricsToAggregateForNode, kinds);
    if !ok {
      return;
    }
    ghost var b3 := batch.metricSets;
    ok := ClusterAggregator(batch, metricsToAggregate, kinds);
    if Scraped(b0, kinds) {
      NodeStageIsTyped(b2, metricsToAggregateForNode, kinds, b3);
      ghost var cluster := ValuesAt(batch.metricSets, ClusterKey);
      forall m | m !in skippedMetrics && Once(metricsToAggregate, m) ensures ClusterHolds(b0, m, Get(cluster, m)) {
        ClusterHoldsPods(b0, skippedMetrics, metricsToAggregate, metricsToAggregateForNode, kinds, b1, b2, b3, cluster,
                         m);
      }
    }
  }

  /** Each stage's input is regular if the batch is as it comes from the sources. */
  lemma Regular(b0: Sets, skipped: set<string>, metrics: seq<string>, kinds: string -> ValueType, b1: Sets, b2: Sets)
    ensures Scraped(b0, kinds) ==> PodAggregator.PodRegular(b0, kinds)
    ensures Scraped(b0, kinds) && PodAggregator.PodStage(b0, skipped, kinds, b1) ==> NamespaceRegular(b1, kinds)
    ensures Scraped(b0, kinds) && PodAggregator.PodStage(b0, skipped, kinds, b1)
            && NamespaceStage(b1, metrics, kinds, b2)
            ==> NodeRegular(b2, kinds)
  {
    if Scraped(b0, kinds) {
      ScrapedIsRegular(b0, kinds);
      if PodAggregator.PodStage(b0, skipped, kinds, b1) {
        PodStageIsScraped(b0, skipped, kinds, b1);
        ScrapedIsNamespaceRegular(b1, kinds);
        if NamespaceStage(b1, metrics, kinds, b2) {
          NamespaceStageIsNodeRegular(b1, metrics, kinds, b2);
        }
      }
    }
  }
}
