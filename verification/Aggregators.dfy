/**
 * The aggregators that add whole metric sets to coarser ones: pods to namespaces, pods to nodes and
 * namespaces to the cluster (heapster/metrics/processors).
 */
module Aggregators {
  import opened Collections
  import opened MetricSets
  import opened Orders
  import opened Wrappers

  /** Which set, if any, the metrics of a set go to. */
  type Target = MetricSet -> Option<Key>

  function NamespaceOf(s: MetricSet): Option<Key> {
    if s.setType == Some(PodSet) && s.namespaceName.Some? then Some(NamespaceKey(s.namespaceName.value)) else None
  }

  function NodeOf(s: MetricSet): Option<Key> {
    if s.setType == Some(PodSet) && s.nodeName.Some? && s.nodeName.value != "" then Some(NodeKey(s.nodeName.value))
      else None
  }

  function ClusterOf(s: MetricSet): Option<Key> {
    if s.setType == Some(NamespaceSet) then Some(ClusterKey) else None
  }

  ghost predicate AllTyped(sets: Sets, kinds: string -> ValueType) {
    forall k :: k in sets ==> Typed(sets[k].values, kinds)
  }

  /** Sets whose metrics go elsewhere are not kept where metrics go. */
  ghost predicate Apart(sets: Sets, target: Target, mayChange: Key -> bool) {
    forall k :: k in sets && target(sets[k]).Some? ==> !mayChange(k)
  }

  /** The sets among `done` that bring metric `m` to `t`. */
  ghost function Sources(sets: Sets, target: Target, t: Key, m: string, done: set<Key>): set<Key> {
    set k | k in done && k in sets && target(sets[k]) == Some(t) && m in sets[k].values
  }

  function ValuesAt(sets: Sets, t: Key): Values {
    if t in sets then sets[t].values else map[]
  }

  /** The values at `t`: a metric listed once is what it was plus what came in; one not listed is untouched. */
  ghost predicate Column(sets: Sets, target: Target, metrics: seq<string>, kinds: string -> ValueType, done: set<Key>,
                         t: Key, base: Values, now: Values)
  {
    && Typed(now, kinds)
    && (forall m :: m !in metrics ==> Get(now, m) == Get(base, m))
    && (forall m :: Once(metrics, m) ==>
        Totals(Get(now, m), Get(base, m), kinds(m), sets, m, Sources(sets, target, t, m, done)))
  }

  lemma ColumnStarts(sets: Sets, target: Target, metrics: seq<string>, kinds: string -> ValueType, t: Key, base: Values)
    requires Typed(base, kinds)
    ensures Column(sets, target, metrics, kinds, {}, t, base, base)
  {
    forall m | Once(metrics, m)
      ensures Totals(Get(base, m), Get(base, m), kinds(m), sets, m, Sources(sets, target, t, m, {}))
    {
      assert Sources(sets, target, t, m, {}) == {};
    }
  }

  /** Set `k` brings nothing to `t`. */
  lemma ColumnStays(sets: Sets, target: Target, metrics: seq<string>, kinds: string -> ValueType, done: set<Key>,
                    k: Key, t: Key, base: Values, now: Values)
    requires Column(sets, target, metrics, kinds, done, t, base, now)
    requires k in sets && target(sets[k]) != Some(t)
    ensures Column(sets, target, metrics, kinds, done + {k}, t, base, now)
  {
    forall m | Once(metrics, m)
      ensures Totals(Get(now, m), Get(base, m), kinds(m), sets, m, Sources(sets, target, t, m, done + {k}))
    {
      assert Sources(sets, target, t, m, done + {k}) == Sources(sets, target, t, m, done);
    }
  }

  /** Set `k` is added at `t`. */
  lemma ColumnGrows(sets: Sets, target: Target, metrics: seq<string>, kinds: string -> ValueType, done: set<Key>,
                    k: Key, t: Key, base: Values, now: Values)
    requires Column(sets, target, metrics, kinds, done, t, base, now)
    requires k in sets && k !in done && target(sets[k]) == Some(t) && Typed(sets[k].values, kinds)
    ensures WithMetrics(now, sets[k].values, metrics).Success?
    ensures Column(sets, target, metrics, kinds, done + {k}, t, base, WithMetrics(now, sets[k].values, metrics).value)
  {
    TypedAdd(now, sets[k].values, metrics, kinds, "");
    var after := WithMetrics(now, sets[k].values, metrics).value;
    forall m | m !in metrics ensures Get(after, m) == Get(base, m) {
      TypedAdd(now, sets[k].values, metrics, kinds, m);
    }
    forall m | Once(metrics, m)
      ensures Totals(Get(after, m), Get(base, m), kinds(m), sets, m, Sources(sets, target, t, m, done + {k}))
    {
      TypedAdd(now, sets[k].values, metrics, kinds, m);
      SourceAdded(sets, target, t, m, done, k);
      if m in sets[k].values {
        TotalsOneMore(Get(now, m), Get(base, m), kinds(m), sets, m, Sources(sets, target, t, m, done), k);
      }
    }
  }

  lemma SourceAdded(sets: Sets, target: Target, t: Key, m: string, done: set<Key>, k: Key)
    requires k in sets && target(sets[k]) == Some(t)
    ensures Sources(sets, target, t, m, done + {k}) ==
            if m in sets[k].values then Sources(sets, target, t, m, done) + {k} else Sources(sets, target, t, m, done)
  {
  }

  // ----- pods to namespaces

  const POD_NAMESPACE_UID := "namespace_id"

  function NamespaceMetricSet(name: string, uid: string): MetricSet {
    MetricSet(Some(NamespaceSet), Some(name), None, None, map[POD_NAMESPACE_UID := uid], map[])
  }

  /** Everything but the values of namespace sets is as before. */
  ghost predicate OnlyValuesChanged(before: Sets, after: Sets, mayChange: Key -> bool) {
    && after.Keys == before.Keys
    && forall k :: k in before ==> after[k] == if mayChange(k) then before[k].(values := after[k].values) else before[k]
  }

  predicate IsNamespace(k: Key) {
    k.NamespaceKey?
  }

  predicate IsNode(k: Key) {
    k.NodeKey?
  }

  /** Some set among `done` goes to `t`. */
  ghost predicate Fed(sets: Sets, target: Target, done: set<Key>, t: Key) {
    exists k :: k in done && k in sets && target(sets[k]) == Some(t)
  }

  ghost predicate Columns(before: Sets, target: Target, metrics: seq<string>, kinds: string -> ValueType,
                          done: set<Key>, now: Sets)
  {
    forall t :: Column(before, target, metrics, kinds, done, t, ValuesAt(before, t), ValuesAt(now, t))
  }

  /** How far the aggregation has got: the values changed in the batch, and the sets to be added to it. */
  ghost predicate Progress(before: Sets, target: Target, metrics: seq<string>, kinds: string -> ValueType,
                           done: set<Key>, batch: Sets, created: Sets)
  {
    && created.Keys !! batch.Keys
    && (forall t :: t in created <==> t !in before && Fed(before, target, done, t))
    && Columns(before, target, metrics, kinds, done, batch + created)
  }

  lemma ProgressStarts(before: Sets, target: Target, metrics: seq<string>, kinds: string -> ValueType)
    requires AllTyped(before, kinds)
    ensures Progress(before, target, metrics, kinds, {}, before, map[])
  {
    assert before + map[] == before;
    forall t ensures Column(before, target, metrics, kinds, {}, t, ValuesAt(before, t), ValuesAt(before, t)) {
      ColumnStarts(before, target, metrics, kinds, t, ValuesAt(before, t));
    }
  }

  lemma ColumnsSkip(before: Sets, target: Target, metrics: seq<string>, kinds: string -> ValueType, done: set<Key>,
                    k: Key, now: Sets)
    requires Columns(before, target, metrics, kinds, done, now) && k in before && target(before[k]) == None
    ensures Columns(before, target, metrics, kinds, done + {k}, now)
  {
    forall t ensures Column(before, target, metrics, kinds, done + {k}, t, ValuesAt(before, t), ValuesAt(now, t)) {
      ColumnStays(before, target, metrics, kinds, done, k, t, ValuesAt(before, t), ValuesAt(now, t));
    }
  }

  lemma ColumnsAdd(before: Sets, target: Target, metrics: seq<string>, kinds: string -> ValueType, done: set<Key>,
                   k: Key, now: Sets, after: Sets)
    requires Columns(before, target, metrics, kinds, done, now)
    requires k in before && k !in done && target(before[k]).Some? && Typed(before[k].values, kinds)
    requires WithMetrics(ValuesAt(now, target(before[k]).value), before[k].values, metrics)
             == Success(ValuesAt(after, target(before[k]).value))
    requires forall t :: t != target(before[k]).value ==> ValuesAt(after, t) == ValuesAt(now, t)
    ensures Columns(before, target, metrics, kinds, done + {k}, after)
  {
    var u := target(before[k]).value;
    forall t ensures Column(before, target, metrics, kinds, done + {k}, t, ValuesAt(before, t), ValuesAt(after, t)) {
      if t == u {
        ColumnGrows(before, target, metrics, kinds, done, k, t, ValuesAt(before, t), ValuesAt(now, t));
      } else {
        ColumnStays(before, target, metrics, kinds, done, k, t, ValuesAt(before, t), ValuesAt(now, t));
      }
    }
  }

  // ----- pods to namespaces, step by step

  /** The batch, and the namespace sets to be added to it. */
  type Working = (Sets, Sets)

  function NamespaceStep(batch: Sets, created: Sets, key: Key, metrics: seq<string>): Result<Working>
    requires key in batch
  {
    if NamespaceOf(batch[key]).None? then Success((batch, created))
    else
      var t := NamespaceOf(batch[key]).value;
      var existing := t !in created && t in batch;
      var namespace := if t in created then created[t] else if t in batch then batch[t]
                       else NamespaceMetricSet(t.namespace, if POD_NAMESPACE_UID in batch[key].labels
                                               then batch[key].labels[POD_NAMESPACE_UID] else "");
      match WithMetrics(namespace.values, batch[key].values, metrics)
      case Failure => Failure
      case Success(values) =>
        var updated := namespace.(values := values);
        if existing then Success((batch[t := updated], created)) else Success((batch, created[t := updated]))
  }

  /** What one set of the batch does to the namespaces. */
  function NamespaceSteps(metrics: seq<string>): Stepper<Working, Key> {
    (w: Working, key: Key) => if key in w.0 then NamespaceStep(w.0, w.1, key, metrics) else Success(w)
  }

  /** The result of taking the keys in some order, whatever types the values have. */
  ghost predicate NamespaceOutcome(before: Sets, metrics: seq<string>, ok: bool, after: Sets) {
    exists r :: Outcome(NamespaceSteps(metrics), (before, map[]), before.Keys, r) && NamespaceEnd(r, ok, after)
  }

  predicate NamespaceEnd(r: Result<Working>, ok: bool, after: Sets) {
    match r
    case Failure => !ok
    case Success(w) => ok && after == w.0 + w.1
  }

  /** Adds one pod to its namespace. */
  method AddToNamespace(batch: DataBatch, namespaces: Sets, key: Key, metricsToAggregate: seq<string>)
    returns (ok: bool, updated: Sets)
    requires key in batch.metricSets
    modifies batch
    ensures match NamespaceStep(old(batch.metricSets), namespaces, key, metricsToAggregate)
            case Success(working) => ok && working == (batch.metricSets, updated)
            case Failure => !ok
    ensures batch.metricSets.Keys == old(batch.metricSets).Keys
  {
    ok, updated := true, namespaces;
    var metricSet := batch.metricSets[key];
    if metricSet.setType != Some(PodSet) || metricSet.namespaceName.None? {
      return;
    }
    var namespaceKey := NamespaceKey(metricSet.namespaceName.value);
    var namespace;
    var existing := false;
    if namespaceKey in namespaces {
      namespace := namespaces[namespaceKey];
    } else if namespaceKey in batch.metricSets {
      namespace, existing := batch.metricSets[namespaceKey], true;
    } else {
      namespace := NamespaceMetricSet(metricSet.namespaceName.value, if POD_NAMESPACE_UID in metricSet.labels
                                      then metricSet.labels[POD_NAMESPACE_UID] else "");
    }
    var values;
    ok, values := Aggregate(metricSet.values, namespace.values, metricsToAggregate);
    if ok {
      if existing {
        batch.metricSets := batch.metricSets[namespaceKey := namespace.(values := values)];
      } else {
        updated := namespaces[namespaceKey := namespace.(values := values)];
      }
    }
  }

  lemma FedSkip(before: Sets, target: Target, done: set<Key>, key: Key)
    requires key in before && target(before[key]) == None
    ensures forall t :: Fed(before, target, done + {key}, t) <==> Fed(before, target, done, t)
  {
  }

  lemma FedAdd(before: Sets, target: Target, done: set<Key>, key: Key, t: Key)
    requires key in before && target(before[key]).Some?
    ensures Fed(before, target, done + {key}, t) <==> Fed(before, target, done, t) || t == target(before[key]).value
  {
    if Fed(before, target, done, t) {
      var k :| k in done && k in before && target(before[k]) == Some(t);
      assert k in done + {key};
    }
    if t == target(before[key]).value {
      assert key in done + {key};
    }
  }

  /** One more set was added at its target, which is in the batch or among the created sets. */
  lemma ProgressAdd(before: Sets, target: Target, metrics: seq<string>, kinds: string -> ValueType, done: set<Key>,
                    key: Key, batch: Sets, created: Sets, batch': Sets, created': Sets)
    requires Progress(before, target, metrics, kinds, done, batch, created) && batch.Keys == before.Keys == batch'.Keys
    requires key in before && key !in done && target(before[key]).Some? && Typed(before[key].values, kinds)
    requires created'.Keys ==
             created.Keys + (if target(before[key]).value in batch then {} else {target(before[key]).value})
    requires WithMetrics(ValuesAt(batch + created, target(before[key]).value), before[key].values, metrics)
             == Success(ValuesAt(batch' + created', target(before[key]).value))
    requires forall t :: t != target(before[key]).value ==>
               ValuesAt(batch' + created', t) == ValuesAt(batch + created, t)
    ensures Progress(before, target, metrics, kinds, done + {key}, batch', created')
  {
    ColumnsAdd(before, target, metrics, kinds, done, key, batch + created, batch' + created');
    forall t ensures t in created' <==> t !in before && Fed(before, target, done + {key}, t) {
      FedAdd(before, target, done, key, t);
    }
  }

  lemma ProgressSkip(before: Sets, target: Target, metrics: seq<string>, kinds: string -> ValueType, done: set<Key>,
                     key: Key, batch: Sets, created: Sets)
    requires Progress(before, target, metrics, kinds, done, batch, created)
    requires key in before && target(before[key]) == None
    ensures Progress(before, target, metrics, kinds, done + {key}, batch, created)
  {
    ColumnsSkip(before, target, metrics, kinds, done, key, batch + created);
    FedSkip(before, target, done, key);
  }

  ghost predicate CreatedAreNamespaces(created: Sets) {
    forall t :: t in created ==> created[t].setType == Some(NamespaceSet)
  }

  /** Pod `key` was added at its namespace `t`, and nothing else changed. */
  ghost predicate NamespaceGrew(batch: Sets, created: Sets, key: Key, metrics: seq<string>, t: Key, batch': Sets,
                                created': Sets)
    requires key in batch
  {
    && batch'.Keys == batch.Keys && created'.Keys == created.Keys + (if t in batch then {} else {t})
    && Success(ValuesAt(batch' + created', t)) == WithMetrics(ValuesAt(batch + created, t), batch[key].values, metrics)
    && (forall u :: u != t ==> ValuesAt(batch' + created', u) == ValuesAt(batch + created, u))
    && OnlyValuesChanged(batch, batch', IsNamespace)
    && (CreatedAreNamespaces(created) ==> CreatedAreNamespaces(created'))
  }

  /** New values for a set of the batch. */
  lemma PutInBatch(batch: Sets, created: Sets, t: Key, values: Values, mayChange: Key -> bool)
    requires created.Keys !! batch.Keys && t in batch && mayChange(t)
    ensures
      var batch' := batch[t := batch[t].(values := values)];
      && OnlyValuesChanged(batch, batch', mayChange) && ValuesAt(batch' + created, t) == values
      && forall u :: u != t ==> ValuesAt(batch' + created, u) == ValuesAt(batch + created, u)
  {
  }

  /** A set that is to be added to the batch. */
  lemma PutInCreated(batch: Sets, created: Sets, t: Key, s: MetricSet)
    requires created.Keys !! batch.Keys && t !in batch
    ensures
      var created' := created[t := s];
      && ValuesAt(batch + created', t) == s.values
      && forall u :: u != t ==> ValuesAt(batch + created', u) == ValuesAt(batch + created, u)
  {
  }

  lemma GrewInBatch(batch: Sets, created: Sets, key: Key, metrics: seq<string>, t: Key, values: Values)
    requires key in batch && created.Keys !! batch.Keys && t in batch && IsNamespace(t)
    requires WithMetrics(ValuesAt(batch + created, t), batch[key].values, metrics) == Success(values)
    ensures NamespaceGrew(batch, created, key, metrics, t, batch[t := batch[t].(values := values)], created)
  {
    PutInBatch(batch, created, t, values, IsNamespace);
  }

  lemma GrewInCreated(batch: Sets, created: Sets, key: Key, metrics: seq<string>, t: Key, namespace: MetricSet)
    requires key in batch && created.Keys !! batch.Keys && t !in batch && namespace.setType == Some(NamespaceSet)
    requires WithMetrics(ValuesAt(batch + created, t), batch[key].values, metrics) == Success(namespace.values)
    ensures NamespaceGrew(batch, created, key, metrics, t, batch, created[t := namespace])
  {
    PutInCreated(batch, created, t, namespace);
  }

  /** What a step that adds a pod does to the two maps. */
  lemma NamespaceStepShape(batch: Sets, created: Sets, key: Key, metrics: seq<string>)
    requires key in batch && NamespaceOf(batch[key]).Some? && created.Keys !! batch.Keys
             && CreatedAreNamespaces(created)
    requires WithMetrics(ValuesAt(batch + created, NamespaceOf(batch[key]).value), batch[key].values, metrics).Success?
    ensures
      var r := NamespaceStep(batch, created, key, metrics);
      r.Success? && NamespaceGrew(batch, created, key, metrics, NamespaceOf(batch[key]).value, r.value.0, r.value.1)
  {
    var t := NamespaceOf(batch[key]).value;
    var values := WithMetrics(ValuesAt(batch + created, t), batch[key].values, metrics).value;
    var r := NamespaceStep(batch, created, key, metrics);
    if t in batch {
      GrewInBatch(batch, created, key, metrics, t, values);
    } else {
      GrewInCreated(batch, created, key, metrics, t, r.value.1[t]);
    }
  }

  /** What holds between two pods. */
  ghost predicate NamespaceInvariant(before: Sets, metrics: seq<string>, kinds: string -> ValueType, done: set<Key>,
                                     batch: Sets, created: Sets)
  {
    && OnlyValuesChanged(before, batch, IsNamespace) && CreatedAreNamespaces(created)
    && Progress(before, NamespaceOf, metrics, kinds, done, batch, created)
  }

  /** The stage does what it is for when types are uniform and pods have no namespace keys. */
  ghost predicate NamespaceRegular(sets: Sets, kinds: string -> ValueType) {
    AllTyped(sets, kinds) && Apart(sets, NamespaceOf, IsNamespace)
  }

  lemma NamespaceStepKeeps(before: Sets, metrics: seq<string>, kinds: string -> ValueType, done: set<Key>,
                           batch: Sets, created: Sets, key: Key)
    requires NamespaceRegular(before, kinds) && NamespaceInvariant(before, metrics, kinds, done, batch, created)
    requires key in before && key !in done
    ensures
      var r := NamespaceStep(batch, created, key, metrics);
      r.Success? && NamespaceInvariant(before, metrics, kinds, done + {key}, r.value.0, r.value.1)
  {
    assert NamespaceOf(batch[key]) == NamespaceOf(before[key]);
    if NamespaceOf(before[key]).None? {
      ProgressSkip(before, NamespaceOf, metrics, kinds, done, key, batch, created);
    } else {
      var t := NamespaceOf(before[key]).value;
      assert batch[key] == before[key];
      assert Column(before, NamespaceOf, metrics, kinds, done, t, ValuesAt(before, t), ValuesAt(batch + created, t));
      ColumnGrows(before, NamespaceOf, metrics, kinds, done, key, t, ValuesAt(before, t), ValuesAt(batch + created, t));
      NamespaceStepShape(batch, created, key, metrics);
      var r := NamespaceStep(batch, created, key, metrics).value;
      ProgressAdd(before, NamespaceOf, metrics, kinds, done, key, batch, created, r.0, r.1);
    }
  }

  /** What the namespace stage leaves behind. */
  ghost predicate NamespaceStage(before: Sets, metrics: seq<string>, kinds: string -> ValueType, after: Sets) {
    && (forall k :: k in after <==> k in before || Fed(before, NamespaceOf, before.Keys, k))
    && (forall k :: k in before ==> after[k] == if IsNamespace(k) then before[k].(values := after[k].values)
        else before[k])
    && (forall k :: k in after && k !in before ==> after[k].setType == Some(NamespaceSet))
    && Columns(before, NamespaceOf, metrics, kinds, before.Keys, after)
  }

  lemma NamespaceStageDone(before: Sets, metrics: seq<string>, kinds: string -> ValueType, batch: Sets, created: Sets)
    requires NamespaceInvariant(before, metrics, kinds, before.Keys, batch, created)
    ensures NamespaceStage(before, metrics, kinds, batch + created)
  {
  }

  lemma NamespaceStageStarts(before: Sets, metrics: seq<string>, kinds: string -> ValueType)
    requires NamespaceRegular(before, kinds)
    ensures NamespaceInvariant(before, metrics, kinds, {}, before, map[])
  {
    ProgressStarts(before, NamespaceOf, metrics, kinds);
  }

  /** With uniform types no step fails, and every order keeps the invariant. */
  lemma {:induction false} RegularSteps(before: Sets, order: seq<Key>, done: set<Key>, metrics: seq<string>,
                                        kinds: string -> ValueType)
    requires NamespaceRegular(before, kinds) && OrderOf(order, done) && done <= before.Keys
    ensures Fold(NamespaceSteps(metrics), (before, map[]), order).Success?
    ensures
      var w := Fold(NamespaceSteps(metrics), (before, map[]), order).value;
      NamespaceInvariant(before, metrics, kinds, done, w.0, w.1)
  {
    if order == [] {
      NoKeys(order, done);
      NamespaceStageStarts(before, metrics, kinds);
    } else {
      var front, key := order[..|order| - 1], order[|order| - 1];
      OrderFront(order, done);
      RegularSteps(before, front, done - {key}, metrics, kinds);
      var w := Fold(NamespaceSteps(metrics), (before, map[]), front).value;
      NamespaceStepKeeps(before, metrics, kinds, done - {key}, w.0, w.1, key);
      assert done - {key} + {key} == done;
    }
  }

  lemma RegularOutcome(before: Sets, metrics: seq<string>, kinds: string -> ValueType, ok: bool, after: Sets)
    requires NamespaceRegular(before, kinds) && NamespaceOutcome(before, metrics, ok, after)
    ensures ok && NamespaceStage(before, metrics, kinds, after)
  {
    var r :| Outcome(NamespaceSteps(metrics), (before, map[]), before.Keys, r) && NamespaceEnd(r, ok, after);
    var order :| OrderOf(order, before.Keys) && Fold(NamespaceSteps(metrics), (before, map[]), order) == r;
    RegularSteps(before, order, before.Keys, metrics, kinds);
    NamespaceStageDone(before, metrics, kinds, r.value.0, r.value.1);
  }

  /**
   * Adds every pod to the set of its namespace, which is created if the batch has none: one after the
   * other in some order, until one cannot be added. With uniform types the order does not matter.
   */
  method NamespaceAggregator(batch: DataBatch, metricsToAggregate: seq<string>, ghost kinds: string -> ValueType)
    returns (ok: bool)
    modifies batch
    ensures NamespaceOutcome(old(batch.metricSets), metricsToAggregate, ok, batch.metricSets)
    ensures NamespaceRegular(old(batch.metricSets), kinds)
            ==> ok && NamespaceStage(old(batch.metricSets), metricsToAggregate, kinds, batch.metricSets)
  {
    ghost var before := batch.metricSets;
    ok := AddPods(batch, metricsToAggregate);
    if NamespaceRegular(before, kinds) {
      RegularOutcome(before, metricsToAggregate, kinds, ok, batch.metricSets);
    }
  }

  method AddPods(batch: DataBatch, metricsToAggregate: seq<string>) returns (ok: bool)
    modifies batch
    ensures NamespaceOutcome(old(batch.metricSets), metricsToAggregate, ok, batch.metricSets)
  {
    ghost var before, steps := batch.metricSets, NamespaceSteps(metricsToAggregate);
    var namespaces: Sets := map[];
    var todo := batch.metricSets.Keys;
    ghost var done: set<Key>, order: seq<Key> := {}, [];
    while todo != {}
      invariant todo == before.Keys - done && done <= before.Keys && batch.metricSets.Keys == before.Keys
      invariant StepsReach(steps, (before, map[]), order, done, (batch.metricSets, namespaces))
    {
      ghost var some := Element(todo);
      var key :| key in todo;
      StepsGoOn(steps, (before, map[]), order, done, (batch.metricSets, namespaces), key, before.Keys);
      ok, namespaces := AddToNamespace(batch, namespaces, key, metricsToAggregate);
      if !ok {
        assert NamespaceEnd(Failure, ok, batch.metricSets);
        return;
      }
      todo, done, order := todo - {key}, done + {key}, order + [key];
    }
    assert done == before.Keys;
    ghost var r := Success((batch.metricSets, namespaces));
    assert Outcome(steps, (before, map[]), before.Keys, r);
    batch.metricSets := batch.metricSets + namespaces;
    ok := true;
    assert NamespaceEnd(r, ok, batch.metricSets);
  }

  // ----- pods to nodes

  function NodeStep(batch: Sets, key: Key, metrics: seq<string>): Result<Sets>
    requires key in batch
  {
    if NodeOf(batch[key]).None? || NodeOf(batch[key]).value !in batch then Success(batch)
    else
      var t := NodeOf(batch[key]).value;
      match WithMetrics(batch[t].values, batch[key].values, metrics)
      case Failure => Failure
      case Success(values) => Success(batch[t := batch[t].(values := values)])
  }

  /** The values of every set that is there are what they were plus what came in. */
  ghost predicate NodeInvariant(before: Sets, metrics: seq<string>, kinds: string -> ValueType, done: set<Key>,
                                now: Sets)
  {
    && OnlyValuesChanged(before, now, IsNode)
    && forall t :: t in before ==> Column(before, NodeOf, metrics, kinds, done, t, before[t].values, now[t].values)
  }

  ghost predicate NodeRegular(sets: Sets, kinds: string -> ValueType) {
    AllTyped(sets, kinds) && Apart(sets, NodeOf, IsNode)
  }

  lemma NodeStepKeeps(before: Sets, metrics: seq<string>, kinds: string -> ValueType, done: set<Key>, batch: Sets,
                      key: Key)
    requires NodeRegular(before, kinds) && NodeInvariant(before, metrics, kinds, done, batch)
    requires key in before && key !in done
    ensures NodeStep(batch, key, metrics).Success?
    ensures NodeInvariant(before, metrics, kinds, done + {key}, NodeStep(batch, key, metrics).value)
  {
    assert NodeOf(batch[key]) == NodeOf(before[key]);
    if NodeOf(before[key]).Some? && NodeOf(before[key]).value in before {
      var t := NodeOf(before[key]).value;
      assert batch[key] == before[key];
      ColumnGrows(before, NodeOf, metrics, kinds, done, key, t, before[t].values, batch[t].values);
    }
    var after := NodeStep(batch, key, metrics).value;
    forall t | t in before
      ensures Column(before, NodeOf, metrics, kinds, done + {key}, t, before[t].values, after[t].values)
    {
      if NodeOf(before[key]) != Some(t) {
        ColumnStays(before, NodeOf, metrics, kinds, done, key, t, before[t].values, batch[t].values);
      }
    }
  }

  lemma NodeStageStarts(before: Sets, metrics: seq<string>, kinds: string -> ValueType)
    requires NodeRegular(before, kinds)
    ensures NodeInvariant(before, metrics, kinds, {}, before)
  {
    forall t | t in before ensures Column(before, NodeOf, metrics, kinds, {}, t, before[t].values, before[t].values) {
      ColumnStarts(before, NodeOf, metrics, kinds, t, before[t].values);
    }
  }

  method NodeStepInPlace(batch: DataBatch, key: Key, metricsToAggregate: seq<string>) returns (ok: bool)
    requires key in batch.metricSets
    modifies batch
    ensures ok <==> NodeStep(old(batch.metricSets), key, metricsToAggregate).Success?
    ensures ok ==> NodeStep(old(batch.metricSets), key, metricsToAggregate) == Success(batch.metricSets)
    ensures OnlyValuesChanged(old(batch.metricSets), batch.metricSets, IsNode)
  {
    ok := true;
    var metricSet := batch.metricSets[key];
    if metricSet.setType != Some(PodSet) || metricSet.nodeName.None? || metricSet.nodeName.value == "" {
      return;
    }
    var nodeKey := NodeKey(metricSet.nodeName.value);
    if nodeKey in batch.metricSets {
      var node := batch.metricSets[nodeKey];
      var values;
      ok, values := Aggregate(metricSet.values, node.values, metricsToAggregate);
      if ok {
        batch.metricSets := batch.metricSets[nodeKey := node.(values := values)];
      }
    }
  }

  function NodeSteps(metrics: seq<string>): Stepper<Sets, Key> {
    (batch: Sets, key: Key) => if key in batch then NodeStep(batch, key, metrics) else Success(batch)
  }

  /** With uniform types no step fails, and every order keeps the invariant. */
  lemma {:induction false} RegularNodeSteps(before: Sets, order: seq<Key>, done: set<Key>, metrics: seq<string>,
                                            kinds: string -> ValueType)
    requires NodeRegular(before, kinds) && OrderOf(order, done) && done <= before.Keys
    ensures Fold(NodeSteps(metrics), before, order).Success?
    ensures NodeInvariant(before, metrics, kinds, done, Fold(NodeSteps(metrics), before, order).value)
  {
    if order == [] {
      NoKeys(order, done);
      NodeStageStarts(before, metrics, kinds);
    } else {
      var front, key := order[..|order| - 1], order[|order| - 1];
      OrderFront(order, done);
      RegularNodeSteps(before, front, done - {key}, metrics, kinds);
      NodeStepKeeps(before, metrics, kinds, done - {key}, Fold(NodeSteps(metrics), before, front).value, key);
      assert done - {key} + {key} == done;
    }
  }

  lemma RegularNodeOutcome(before: Sets, metrics: seq<string>, kinds: string -> ValueType, r: Result<Sets>)
    requires NodeRegular(before, kinds) && Outcome(NodeSteps(metrics), before, before.Keys, r)
    ensures r.Success? && NodeInvariant(before, metrics, kinds, before.Keys, r.value)
  {
    var order :| OrderOf(order, before.Keys) && Fold(NodeSteps(metrics), before, order) == r;
    RegularNodeSteps(before, order, before.Keys, metrics, kinds);
  }

  /**
   * Adds every pod to the set of its node, one after the other in some order, until one cannot be added.
   * Whatever the batch holds, only values of node sets change.
   */
  method NodeAggregator(batch: DataBatch, metricsToAggregate: seq<string>, ghost kinds: string -> ValueType)
    returns (ok: bool)
    modifies batch
    ensures OnlyValuesChanged(old(batch.metricSets), batch.metricSets, IsNode)
    ensures Outcome(NodeSteps(metricsToAggregate), old(batch.metricSets), old(batch.metricSets).Keys,
                    if ok then Success(batch.metricSets) else Failure)
    ensures NodeRegular(old(batch.metricSets), kinds)
            ==> ok && NodeInvariant(old(batch.metricSets), metricsToAggregate, kinds, old(batch.metricSets).Keys,
                                    batch.metricSets)
  {
    ghost var before := batch.metricSets;
    ok := AddPodsToNodes(batch, metricsToAggregate);
    if NodeRegular(before, kinds) {
      RegularNodeOutcome(before, metricsToAggregate, kinds, if ok then Success(batch.metricSets) else Failure);
    }
  }

  /** One pod, or a set that is none. */
  method AddToNode(batch: DataBatch, key: Key, metricsToAggregate: seq<string>, ghost before: Sets,
                   ghost order: seq<Key>, ghost done: set<Key>)
    returns (ok: bool)
    requires key in batch.metricSets && key !in done && done + {key} <= before.Keys
    requires StepsReach(NodeSteps(metricsToAggregate), before, order, done, batch.metricSets)
    requires OnlyValuesChanged(before, batch.metricSets, IsNode)
    modifies batch
    ensures OnlyValuesChanged(before, batch.metricSets, IsNode)
    ensures if ok then StepsReach(NodeSteps(metricsToAggregate), before, order + [key], done + {key}, batch.metricSets)
            else Outcome(NodeSteps(metricsToAggregate), before, before.Keys, Failure)
  {
    StepsGoOn(NodeSteps(metricsToAggregate), before, order, done, batch.metricSets, key, before.Keys);
    ok := NodeStepInPlace(batch, key, metricsToAggregate);
  }

  method AddPodsToNodes(batch: DataBatch, metricsToAggregate: seq<string>) returns (ok: bool)
    modifies batch
    ensures OnlyValuesChanged(old(batch.metricSets), batch.metricSets, IsNode)
    ensures Outcome(NodeSteps(metricsToAggregate), old(batch.metricSets), old(batch.metricSets).Keys,
                    if ok then Success(batch.metricSets) else Failure)
  {
    ghost var before, steps := batch.metricSets, NodeSteps(metricsToAggregate);
    var todo := batch.metricSets.Keys;
    ghost var done: set<Key>, order: seq<Key> := {}, [];
    while todo != {}
      invariant todo == before.Keys - done && done <= before.Keys && OnlyValuesChanged(before, batch.metricSets, IsNode)
      invariant StepsReach(steps, before, order, done, batch.metricSets)
    {
      ghost var some := Element(todo);
      var key :| key in todo;
      ok := AddToNode(batch, key, metricsToAggregate, before, order, done);
      if !ok {
        return;
      }
      todo, done, order := todo - {key}, done + {key}, order + [key];
    }
    assert done == before.Keys;
    ok := true;
  }

  // ----- namespaces to the cluster

  const CLUSTER_METRIC_SET := MetricSet(Some(ClusterSet), None, None, None, map[], map[])

  /** One set: the values of a namespace are added to those of the cluster, any other is passed over. */
  function ClusterSteps(sets: Sets, metrics: seq<string>): Stepper<Values, Key> {
    (cluster: Values, key: Key) =>
      if key in sets && ClusterOf(sets[key]).Some? then WithMetrics(cluster, sets[key].values, metrics)
        else Success(cluster)
  }

  /** With uniform types no step fails, and in every order the cluster gets the sums. */
  lemma {:induction false} RegularClusterSteps(sets: Sets, order: seq<Key>, done: set<Key>, metrics: seq<string>,
                                               kinds: string -> ValueType)
    requires AllTyped(sets, kinds) && OrderOf(order, done) && done <= sets.Keys
    ensures Fold(ClusterSteps(sets, metrics), map[], order).Success?
    ensures Column(sets, ClusterOf, metrics, kinds, done, ClusterKey, map[],
                   Fold(ClusterSteps(sets, metrics), map[], order).value)
  {
    if order == [] {
      NoKeys(order, done);
      ColumnStarts(sets, ClusterOf, metrics, kinds, ClusterKey, map[]);
    } else {
      var front, key := order[..|order| - 1], order[|order| - 1];
      OrderFront(order, done);
      RegularClusterSteps(sets, front, done - {key}, metrics, kinds);
      var cluster := Fold(ClusterSteps(sets, metrics), map[], front).value;
      if ClusterOf(sets[key]).Some? {
        ColumnGrows(sets, ClusterOf, metrics, kinds, done - {key}, key, ClusterKey, map[], cluster);
      } else {
        ColumnStays(sets, ClusterOf, metrics, kinds, done - {key}, key, ClusterKey, map[], cluster);
      }
      assert done - {key} + {key} == done;
    }
  }

  lemma RegularClusterOutcome(sets: Sets, metrics: seq<string>, kinds: string -> ValueType, r: Result<Values>)
    requires AllTyped(sets, kinds) && Outcome(ClusterSteps(sets, metrics), map[], sets.Keys, r)
    ensures r.Success? && Column(sets, ClusterOf, metrics, kinds, sets.Keys, ClusterKey, map[], r.value)
  {
    var order :| OrderOf(order, sets.Keys) && Fold(ClusterSteps(sets, metrics), map[], order) == r;
    RegularClusterSteps(sets, order, sets.Keys, metrics, kinds);
  }

  method AddToCluster(sets: Sets, key: Key, cluster: Values, metricsToAggregate: seq<string>)
    returns (ok: bool, updated: Values)
    requires key in sets
    ensures ClusterSteps(sets, metricsToAggregate)(cluster, key) == if ok then Success(updated) else Failure
  {
    ok, updated := true, cluster;
    if sets[key].setType == Some(NamespaceSet) {
      ok, updated := Aggregate(sets[key].values, cluster, metricsToAggregate);
    }
  }

  /** The values of the new cluster set. */
  method SumNamespaces(sets: Sets, metricsToAggregate: seq<string>) returns (ok: bool, cluster: Values)
    ensures Outcome(ClusterSteps(sets, metricsToAggregate), map[], sets.Keys, if ok then Success(cluster) else Failure)
  {
    ghost var steps := ClusterSteps(sets, metricsToAggregate);
    cluster := map[];
    var todo := sets.Keys;
    ghost var done: set<Key>, order: seq<Key> := {}, [];
    while todo != {}
      invariant todo == sets.Keys - done && done <= sets.Keys
      invariant StepsReach(steps, map[], order, done, cluster)
    {
      ghost var some := Element(todo);
      var key :| key in todo;
      StepsGoOn(steps, map[], order, done, cluster, key, sets.Keys);
      ok, cluster := AddToCluster(sets, key, cluster, metricsToAggregate);
      if !ok {
        return;
      }
      todo, done, order := todo - {key}, done + {key}, order + [key];
    }
    assert done == sets.Keys;
    ok := true;
  }

  /**
   * The cluster set is replaced by one whose values come of adding the namespaces in some order, or nothing
   * changes.
   */
  ghost predicate ClusterOutcome(before: Sets, metrics: seq<string>, ok: bool, after: Sets) {
    if ok then
      && ClusterKey in after && after == before[ClusterKey := CLUSTER_METRIC_SET.(values := after[ClusterKey].values)]
      && Outcome(ClusterSteps(before, metrics), map[], before.Keys, Success(after[ClusterKey].values))
    else
      after == before && Outcome(ClusterSteps(before, metrics), map[], before.Keys, Failure)
  }

  /** Adds every namespace to a new cluster set, which takes the place of one that the batch may have. */
  method ClusterAggregator(batch: DataBatch, metricsToAggregate: seq<string>, ghost kinds: string -> ValueType)
    returns (ok: bool)
    modifies batch
    ensures ClusterOutcome(old(batch.metricSets), metricsToAggregate, ok, batch.metricSets)
    ensures AllTyped(old(batch.metricSets), kinds) ==>
              ok && Column(old(batch.metricSets), ClusterOf, metricsToAggregate, kinds, old(batch.metricSets).Keys,
                           ClusterKey, map[], batch.metricSets[ClusterKey].values)
  {
    var cluster;
    ok, cluster := SumNamespaces(batch.metricSets, metricsToAggregate);
    if AllTyped(batch.metricSets, kinds) {
      RegularClusterOutcome(batch.metricSets, metricsToAggregate, kinds, if ok then Success(cluster) else Failure);
    }
    if ok {
      batch.metricSets := batch.metricSets[ClusterKey := CLUSTER_METRIC_SET.(values := cluster)];
    }
  }
}
