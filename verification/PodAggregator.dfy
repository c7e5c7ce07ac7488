/** Containers to pods (heapster/metrics/processors/pod_aggregator.go). */
module PodAggregator {
  import opened Aggregators
  import opened Collections
  import opened MetricSets
  import opened Orders
  import opened Wrappers

  /** The pod and metric for which values of containers are added up. */
  type Required = set<(Key, string)>

  function PodOf(s: MetricSet): Option<Key> {
    if s.setType == Some(PodContainerSet) && s.podName.Some? && s.namespaceName.Some?
    then Some(PodKey(s.namespaceName.value, s.podName.value)) else None
  }

  predicate IsPod(k: Key) {
    k.PodKey?
  }

  /** The labels a new pod takes over, beside its name and namespace. */
  const LABELS_TO_POPULATE := {"pod_id", POD_NAMESPACE_UID, "hostname", "host_id"}

  /** A pod set made from the labels of one of its containers. */
  function PodMetricSet(container: MetricSet): MetricSet {
    MetricSet(Some(PodSet), container.namespaceName, container.podName, None,
              map l | l in container.labels && l in LABELS_TO_POPULATE :: container.labels[l], map[])
  }

  // ----- one container

  /** What a container's value does to its pod's, for one metric. */
  function Merge(into: Option<Value>, from: Option<Value>, skipped: bool, required: bool): Result<Option<Value>> {
    if from.None? || skipped then Success(into)
    else if into.None? then Success(from)
    else if !required || into.value.kind != from.value.kind then Success(into)
    else if into.value.kind == OtherValue then Failure
    else Success(Some(Add(into.value, from.value)))
  }

  ghost predicate Merged(pod: Values, container: Values, skipped: set<string>, podKey: Key, required: Required,
                         done: set<string>, now: Values, requiredNow: Required)
  {
    && (forall m :: Success(Get(now, m)) ==
                    if m in done then Merge(Get(pod, m), Get(container, m), m in skipped, (podKey, m) in required)
                      else Success(Get(pod, m)))
    && (forall k, m :: (k, m) in requiredNow <==>
                       (k, m) in required || (k == podKey && m in done && m in container && m !in skipped && m !in pod))
  }

  /** One metric of a container. */
  method AddMetric(values: Values, metricName: string, metricValue: Value, skipped: set<string>, podKey: Key,
                   required: Required)
    returns (ok: bool, updated: Values, requiredNow: Required)
    ensures match Merge(Get(values, metricName), Some(metricValue), metricName in skipped,
                        (podKey, metricName) in required)
            case Failure => !ok
            case Success(v) => ok && Get(updated, metricName) == v && forall m :: m != metricName ==>
                Get(updated, m) == Get(values, m)
    ensures requiredNow == if metricName !in skipped && metricName !in values then required + {(podKey, metricName)}
            else required
  {
    ok, updated, requiredNow := true, values, required;
    if metricName in skipped {
      return;
    }
    if metricName !in values {
      requiredNow := required + {(podKey, metricName)};
      updated := values[metricName := metricValue];
      return;
    }
    var aggregatedValue := values[metricName];
    if (podKey, metricName) in required {
      if aggregatedValue.kind != metricValue.kind {
        return;
      }
      if aggregatedValue.kind == OtherValue {
        return false, values, required;
      }
      aggregatedValue := Add(aggregatedValue, metricValue);
    }
    updated := values[metricName := aggregatedValue];
  }

  /** All metrics of a container, in whatever order. */
  method AddContainer(pod: Values, container: Values, skipped: set<string>, podKey: Key, required: Required)
    returns (ok: bool, values: Values, requiredNow: Required)
    ensures ok ==> Merged(pod, container, skipped, podKey, required, container.Keys, values, requiredNow)
    ensures ok <==>
            forall m :: m in container ==>
                Merge(Get(pod, m), Get(container, m), m in skipped, (podKey, m) in required).Success?
  {
    values, requiredNow := pod, required;
    var todo := container.Keys;
    ghost var done: set<string> := {};
    while todo != {}
      invariant todo == container.Keys - done && done <= container.Keys
      invariant Merged(pod, container, skipped, podKey, required, done, values, requiredNow)
    {
      ghost var some := Element(todo);
      var metricName :| metricName in todo;
      ghost var values0, required0 := values, requiredNow;
      assert Get(values0, metricName) == Get(pod, metricName)
             && ((podKey, metricName) in required0 <==> (podKey, metricName) in required);
      ok, values, requiredNow := AddMetric(values, metricName, container[metricName], skipped, podKey, requiredNow);
      if !ok {
        return;
      }
      todo, done := todo - {metricName}, done + {metricName};
    }
    assert done == container.Keys;
    ok := true;
    forall m | m in container
      ensures Merge(Get(pod, m), Get(container, m), m in skipped, (podKey, m) in required).Success?
    {
      assert Success(Get(values, m)) == Merge(Get(pod, m), Get(container, m), m in skipped, (podKey, m) in required);
    }
  }

  // ----- the values of one pod

  /**
   * A metric the pod had at first stays, and so does a skipped one; any other is the sum over the
   * containers processed, and those are the ones for which sums are required.
   */
  ghost predicate PodCell(sets: Sets, skipped: bool, kind: ValueType, done: set<Key>, t: Key, m: string,
                          base: Option<Value>, now: Option<Value>, required: bool)
  {
    && (now.Some? ==> now.value.kind == kind != OtherValue)
    && (if skipped || base.Some? then now == base
        else Totals(now, None, kind, sets, m, Sources(sets, PodOf, t, m, done)))
    && (required <==> !skipped && base.None? && Sources(sets, PodOf, t, m, done) != {})
  }

  ghost predicate PodColumn(sets: Sets, skipped: set<string>, kinds: string -> ValueType, done: set<Key>,
                            t: Key, base: Values, now: Values, required: Required)
  {
    forall m :: PodCell(sets, m in skipped, kinds(m), done, t, m, Get(base, m), Get(now, m), (t, m) in required)
  }

  lemma PodColumnStarts(sets: Sets, skipped: set<string>, kinds: string -> ValueType, t: Key, base: Values)
    requires Typed(base, kinds)
    ensures PodColumn(sets, skipped, kinds, {}, t, base, base, {})
  {
    forall m ensures PodCell(sets, m in skipped, kinds(m), {}, t, m, Get(base, m), Get(base, m), false) {
      assert Sources(sets, PodOf, t, m, {}) == {};
    }
  }

  lemma PodColumnStays(sets: Sets, skipped: set<string>, kinds: string -> ValueType, done: set<Key>, k: Key,
                       t: Key, base: Values, now: Values, required: Required, requiredNow: Required)
    requires PodColumn(sets, skipped, kinds, done, t, base, now, required)
    requires k in sets && PodOf(sets[k]) != Some(t)
    requires forall m :: (t, m) in requiredNow <==> (t, m) in required
    ensures PodColumn(sets, skipped, kinds, done + {k}, t, base, now, requiredNow)
  {
    forall m ensures PodCell(sets, m in skipped, kinds(m), done + {k}, t, m, Get(base, m), Get(now, m),
                             (t, m) in requiredNow)
    {
      assert PodCell(sets, m in skipped, kinds(m), done, t, m, Get(base, m), Get(now, m), (t, m) in required);
      assert Sources(sets, PodOf, t, m, done + {k}) == Sources(sets, PodOf, t, m, done);
    }
  }

  /** One more container of pod `t`, for one metric. */
  lemma PodCellGrows(sets: Sets, skipped: bool, kind: ValueType, done: set<Key>, k: Key, t: Key, m: string,
                     base: Option<Value>, now: Option<Value>, required: bool)
    requires PodCell(sets, skipped, kind, done, t, m, base, now, required)
    requires k in sets && k !in done && PodOf(sets[k]) == Some(t)
    requires m in sets[k].values ==> sets[k].values[m].kind == kind != OtherValue
    ensures
      var from := Get(sets[k].values, m);
      var after := Merge(now, from, skipped, required);
      && after.Success?
      && PodCell(sets, skipped, kind, done + {k}, t, m, base, after.value, required
                 || (from.Some? && !skipped && now.None?))
  {
    SourceAdded(sets, PodOf, t, m, done, k);
    if !skipped && base.None? && m in sets[k].values {
      TotalsOneMore(now, None, kind, sets, m, Sources(sets, PodOf, t, m, done), k);
    }
  }

  lemma PodColumnGrows(sets: Sets, skipped: set<string>, kinds: string -> ValueType, done: set<Key>, k: Key,
                       t: Key, base: Values, now: Values, after: Values, required: Required, requiredNow: Required)
    requires PodColumn(sets, skipped, kinds, done, t, base, now, required)
    requires k in sets && k !in done && PodOf(sets[k]) == Some(t) && Typed(sets[k].values, kinds)
    requires Merged(now, sets[k].values, skipped, t, required, sets[k].values.Keys, after, requiredNow)
    ensures PodColumn(sets, skipped, kinds, done + {k}, t, base, after, requiredNow)
  {
    forall m ensures PodCell(sets, m in skipped, kinds(m), done + {k}, t, m, Get(base, m), Get(after, m),
                             (t, m) in requiredNow)
    {
      assert PodCell(sets, m in skipped, kinds(m), done, t, m, Get(base, m), Get(now, m), (t, m) in required);
      PodCellGrows(sets, m in skipped, kinds(m), done, k, t, m, Get(base, m), Get(now, m), (t, m) in required);
      MergedAt(now, sets[k].values, skipped, t, required, after, requiredNow, m);
    }
  }

  lemma MergedAt(pod: Values, container: Values, skipped: set<string>, t: Key, required: Required, now: Values,
                 requiredNow: Required, m: string)
    requires Merged(pod, container, skipped, t, required, container.Keys, now, requiredNow)
    ensures Success(Get(now, m)) == Merge(Get(pod, m), Get(container, m), m in skipped, (t, m) in required)
    ensures (t, m) in requiredNow <==> (t, m) in required || (m in container && m !in skipped && m !in pod)
  {
    assert Success(Get(now, m)) ==
           if m in container.Keys then Merge(Get(pod, m), Get(container, m), m in skipped, (t, m) in required)
             else Success(Get(pod, m));
  }

  /** A container of uniform type is always merged. */
  lemma AlwaysMerges(sets: Sets, skipped: set<string>, kinds: string -> ValueType, done: set<Key>, k: Key,
                     t: Key, base: Values, now: Values, required: Required)
    requires PodColumn(sets, skipped, kinds, done, t, base, now, required)
    requires k in sets && k !in done && PodOf(sets[k]) == Some(t) && Typed(sets[k].values, kinds)
    ensures forall m :: m in sets[k].values ==>
              Merge(Get(now, m), Get(sets[k].values, m), m in skipped, (t, m) in required).Success?
  {
    forall m | m in sets[k].values
      ensures Merge(Get(now, m), Get(sets[k].values, m), m in skipped, (t, m) in required).Success?
    {
      assert PodCell(sets, m in skipped, kinds(m), done, t, m, Get(base, m), Get(now, m), (t, m) in required);
      PodCellGrows(sets, m in skipped, kinds(m), done, k, t, m, Get(base, m), Get(now, m), (t, m) in required);
    }
  }

  // ----- the whole batch

  ghost predicate PodColumns(before: Sets, skipped: set<string>, kinds: string -> ValueType, done: set<Key>, now: Sets,
                             required: Required)
  {
    forall t :: PodColumn(before, skipped, kinds, done, t, ValuesAt(before, t), ValuesAt(now, t), required)
  }

  ghost predicate CreatedArePods(created: Sets) {
    forall t :: t in created ==>
        t.PodKey? && created[t].setType == Some(PodSet) && created[t].namespaceName == Some(t.namespace)
  }

  /** What holds between two containers: the values changed in the batch, and the pods to be added to it. */
  ghost predicate PodInvariant(before: Sets, skipped: set<string>, kinds: string -> ValueType, done: set<Key>,
                               batch: Sets, created: Sets, required: Required)
  {
    && OnlyValuesChanged(before, batch, IsPod) && CreatedArePods(created)
    && (forall t :: t in created <==> t !in before && Fed(before, PodOf, done, t))
    && PodColumns(before, skipped, kinds, done, batch + created, required)
  }

  /** The stage does what it is for when types are uniform and containers have no pod keys. */
  ghost predicate PodRegular(sets: Sets, kinds: string -> ValueType) {
    AllTyped(sets, kinds) && Apart(sets, PodOf, IsPod)
  }

  lemma PodStageStarts(before: Sets, skipped: set<string>, kinds: string -> ValueType)
    requires PodRegular(before, kinds)
    ensures PodInvariant(before, skipped, kinds, {}, before, map[], {})
  {
    assert before + map[] == before;
    forall t ensures PodColumn(before, skipped, kinds, {}, t, ValuesAt(before, t), ValuesAt(before, t), {}) {
      PodColumnStarts(before, skipped, kinds, t, ValuesAt(before, t));
    }
  }

  lemma PodSkipKeeps(before: Sets, skipped: set<string>, kinds: string -> ValueType, done: set<Key>, key: Key,
                     batch: Sets, created: Sets, required: Required)
    requires PodInvariant(before, skipped, kinds, done, batch, created, required)
    requires key in before && PodOf(before[key]) == None
    ensures PodInvariant(before, skipped, kinds, done + {key}, batch, created, required)
  {
    FedSkip(before, PodOf, done, key);
    forall t ensures PodColumn(before, skipped, kinds, done + {key}, t, ValuesAt(before, t),
                               ValuesAt(batch + created, t), required)
    {
      PodColumnStays(before, skipped, kinds, done, key, t, ValuesAt(before, t), ValuesAt(batch + created, t), required,
                     required);
    }
  }

  /** A container's values were merged into its pod's, and no other values changed. */
  ghost predicate PodChanged(batch: Sets, created: Sets, container: Values, skipped: set<string>, t: Key,
                             required: Required, batch': Sets, created': Sets, required': Required)
  {
    && OnlyValuesChanged(batch, batch', IsPod) && created'.Keys == created.Keys + (if t in batch then {} else {t})
    && Merged(ValuesAt(batch + created, t), container, skipped, t, required, container.Keys,
              ValuesAt(batch' + created', t), required')
    && forall u :: u != t ==> ValuesAt(batch' + created', u) == ValuesAt(batch + created, u)
  }

  lemma PodAddKeeps(before: Sets, skipped: set<string>, kinds: string -> ValueType, done: set<Key>, key: Key,
                    batch: Sets, created: Sets, required: Required, batch': Sets, created': Sets, required': Required)
    requires PodRegular(before, kinds) && PodInvariant(before, skipped, kinds, done, batch, created, required)
    requires key in before && key !in done && PodOf(before[key]).Some? && CreatedArePods(created')
    requires PodChanged(batch, created, before[key].values, skipped, PodOf(before[key]).value, required, batch',
                        created', required')
    ensures PodInvariant(before, skipped, kinds, done + {key}, batch', created', required')
  {
    var t := PodOf(before[key]).value;
    forall u ensures PodColumn(before, skipped, kinds, done + {key}, u, ValuesAt(before, u),
                               ValuesAt(batch' + created', u), required')
    {
      assert PodColumn(before, skipped, kinds, done, u, ValuesAt(before, u), ValuesAt(batch + created, u), required);
      if u == t {
        PodColumnGrows(before, skipped, kinds, done, key, t, ValuesAt(before, t), ValuesAt(batch + created, t),
                       ValuesAt(batch' + created', t), required, required');
      } else {
        PodColumnStays(before, skipped, kinds, done, key, u, ValuesAt(before, u), ValuesAt(batch + created, u),
                       required, required');
      }
    }
    forall u ensures u in created' <==> u !in before && Fed(before, PodOf, done + {key}, u) {
      FedAdd(before, PodOf, done, key, u);
    }
  }

  // ----- the stage, step by step

  /** The batch, the pods to be added to it, and the metrics for which values are added up. */
  datatype PodState = PodState(batch: Sets, created: Sets, required: Required)

  /** A container's values merged into its pod's, unless one of them cannot be. */
  ghost function MergedValues(pod: Values, container: Values, skipped: set<string>, t: Key,
                              required: Required): Result<Values>
  {
    if forall m :: m in container ==> Merge(Get(pod, m), Get(container, m), m in skipped, (t, m) in required).Success?
    then Success(map m | m in pod.Keys + (container.Keys - skipped) ::
                   Merge(Get(pod, m), Get(container, m), m in skipped, (t, m) in required).value.value)
    else Failure
  }

  /** The metrics that a pod got from this container first. */
  ghost function NewlyRequired(pod: Values, container: Values, skipped: set<string>, t: Key): Required {
    set m | m in container && m !in skipped && m !in pod :: (t, m)
  }

  lemma MergedIsThat(pod: Values, container: Values, skipped: set<string>, t: Key, required: Required, now: Values,
                     requiredNow: Required)
    requires forall m :: m in container ==>
               Merge(Get(pod, m), Get(container, m), m in skipped, (t, m) in required).Success?
    ensures Merged(pod, container, skipped, t, required, container.Keys, now, requiredNow) <==>
            MergedValues(pod, container, skipped, t, required) == Success(now)
              && requiredNow == required + NewlyRequired(pod, container, skipped, t)
  {
    var merged := MergedValues(pod, container, skipped, t, required).value;
    forall m ensures Success(Get(merged, m)) ==
                     if m in container then Merge(Get(pod, m), Get(container, m), m in skipped, (t, m) in required)
                       else Success(Get(pod, m)) {
    }
    if Merged(pod, container, skipped, t, required, container.Keys, now, requiredNow) {
      SameValues(now, merged);
      forall p ensures p in requiredNow <==> p in required + NewlyRequired(pod, container, skipped, t) {
        assert p == (p.0, p.1);
        assert p in NewlyRequired(pod, container, skipped, t) <==>
               p.0 == t && p.1 in container && p.1 !in skipped && p.1 !in pod;
      }
    }
  }

  lemma SameValues(a: Values, b: Values)
    requires forall m :: Get(a, m) == Get(b, m)
    ensures a == b
  {
    forall m ensures m in a <==> m in b {
      assert Get(a, m) == Get(b, m);
    }
    forall m | m in a ensures a[m] == b[m] {
      assert Get(a, m) == Get(b, m);
    }
  }

  /** One set of the batch: a container goes to its pod, which is created if there is none; any other is passed over. */
  ghost function PodStep(s: PodState, key: Key, skipped: set<string>): Result<PodState>
    requires key in s.batch
  {
    if PodOf(s.batch[key]).None? then Success(s)
    else
      var t, container := PodOf(s.batch[key]).value, s.batch[key].values;
      var pod := if t in s.batch then s.batch[t] else if t in s.created then s.created[t]
        else PodMetricSet(s.batch[key]);
      match MergedValues(pod.values, container, skipped, t, s.required)
      case Failure => Failure
      case Success(values) =>
        var required := s.required + NewlyRequired(pod.values, container, skipped, t);
        if t in s.batch then Success(PodState(s.batch[t := pod.(values := values)], s.created, required))
        else Success(PodState(s.batch, s.created[t := pod.(values := values)], required))
  }

  ghost function PodSteps(skipped: set<string>): Stepper<PodState, Key> {
    (s: PodState, key: Key) => if key in s.batch then PodStep(s, key, skipped) else Success(s)
  }

  function PodStart(before: Sets): PodState {
    PodState(before, map[], {})
  }

  /** The result of taking the sets of the batch in some order, whatever types the values have. */
  ghost predicate PodOutcome(before: Sets, skipped: set<string>, ok: bool, after: Sets) {
    exists r :: Outcome(PodSteps(skipped), PodStart(before), before.Keys, r) && PodEnd(r, ok, after)
  }

  ghost predicate PodEnd(r: Result<PodState>, ok: bool, after: Sets) {
    match r
    case Failure => !ok
    case Success(s) => ok && after == s.batch + s.created
  }

  /** What a step that merges a container does to the values. */
  lemma PodStepChanged(s: PodState, key: Key, skipped: set<string>)
    requires key in s.batch && PodOf(s.batch[key]).Some? && s.created.Keys !! s.batch.Keys && CreatedArePods(s.created)
    requires
      var t := PodOf(s.batch[key]).value;
      forall m :: m in s.batch[key].values ==>
                    Merge(Get(ValuesAt(s.batch + s.created, t), m), Get(s.batch[key].values, m), m in skipped,
                          (t, m) in s.required).Success?
    ensures PodStep(s, key, skipped).Success?
    ensures
      var s' := PodStep(s, key, skipped).value;
      && s'.created.Keys !! s'.batch.Keys && CreatedArePods(s'.created)
      && PodChanged(s.batch, s.created, s.batch[key].values, skipped, PodOf(s.batch[key]).value, s.required, s'.batch,
                    s'.created, s'.required)
  {
    var t, container := PodOf(s.batch[key]).value, s.batch[key].values;
    var pod := if t in s.batch then s.batch[t] else if t in s.created then s.created[t] else PodMetricSet(s.batch[key]);
    assert pod.values == ValuesAt(s.batch + s.created, t);
    var values := MergedValues(pod.values, container, skipped, t, s.required).value;
    MergedIsThat(pod.values, container, skipped, t, s.required, values,
                 s.required + NewlyRequired(pod.values, container, skipped, t));
    if t in s.batch {
      PutInBatch(s.batch, s.created, t, values, IsPod);
    } else {
      PutInCreated(s.batch, s.created, t, pod.(values := values));
    }
  }

  lemma PodStepKeeps(before: Sets, skipped: set<string>, kinds: string -> ValueType, done: set<Key>, key: Key,
                     s: PodState)
    requires PodRegular(before, kinds) && PodInvariant(before, skipped, kinds, done, s.batch, s.created, s.required)
    requires key in before && key !in done && s.created.Keys !! s.batch.Keys
    ensures PodStep(s, key, skipped).Success?
    ensures
      var s' := PodStep(s, key, skipped).value;
      s'.created.Keys !! s'.batch.Keys
        && PodInvariant(before, skipped, kinds, done + {key}, s'.batch, s'.created, s'.required)
  {
    if PodOf(before[key]).None? {
      assert PodOf(s.batch[key]).None?;
      PodSkipKeeps(before, skipped, kinds, done, key, s.batch, s.created, s.required);
    } else {
      assert s.batch[key] == before[key];
      var t := PodOf(before[key]).value;
      assert PodColumn(before, skipped, kinds, done, t, ValuesAt(before, t), ValuesAt(s.batch + s.created, t),
                       s.required);
      AlwaysMerges(before, skipped, kinds, done, key, t, ValuesAt(before, t), ValuesAt(s.batch + s.created, t),
                   s.required);
      PodStepChanged(s, key, skipped);
      var s' := PodStep(s, key, skipped).value;
      PodAddKeeps(before, skipped, kinds, done, key, s.batch, s.created, s.required, s'.batch, s'.created, s'.required);
    }
  }

  /** With uniform types no step fails, and every order keeps the invariant. */
  lemma {:induction false} RegularPodSteps(before: Sets, order: seq<Key>, done: set<Key>, skipped: set<string>,
                                           kinds: string -> ValueType)
    requires PodRegular(before, kinds) && OrderOf(order, done) && done <= before.Keys
    ensures Fold(PodSteps(skipped), PodStart(before), order).Success?
    ensures
      var s := Fold(PodSteps(skipped), PodStart(before), order).value;
      s.created.Keys !! s.batch.Keys && PodInvariant(before, skipped, kinds, done, s.batch, s.created, s.required)
  {
    if order == [] {
      NoKeys(order, done);
      PodStageStarts(before, skipped, kinds);
    } else {
      var front, key := order[..|order| - 1], order[|order| - 1];
      OrderFront(order, done);
      RegularPodSteps(before, front, done - {key}, skipped, kinds);
      PodStepKeeps(before, skipped, kinds, done - {key}, key, Fold(PodSteps(skipped), PodStart(before), front).value);
      assert done - {key} + {key} == done;
    }
  }

  /** What the pod stage leaves behind. */
  ghost predicate PodStage(before: Sets, skipped: set<string>, kinds: string -> ValueType, after: Sets) {
    && (forall k :: k in after <==> k in before || Fed(before, PodOf, before.Keys, k))
    && (forall k :: k in before ==> after[k] == if IsPod(k) then before[k].(values := after[k].values) else before[k])
    && (forall k :: k in after && k !in before ==>
        k.PodKey? && after[k].setType == Some(PodSet) && after[k].namespaceName == Some(k.namespace))
    && (forall t, m :: PodTotal(before, skipped, kinds, t, m, Get(ValuesAt(after, t), m)))
  }

  /** The pod-level value where there was one, or the metric is not for summing up; else the sum over the containers. */
  ghost predicate PodTotal(before: Sets, skipped: set<string>, kinds: string -> ValueType, t: Key, m: string,
                           now: Option<Value>)
  {
    && (now.Some? ==> now.value.kind == kinds(m) != OtherValue)
    && (if m in skipped || m in ValuesAt(before, t) then now == Get(ValuesAt(before, t), m)
        else Totals(now, None, kinds(m), before, m, Sources(before, PodOf, t, m, before.Keys)))
  }

  lemma PodStageEnds(before: Sets, skipped: set<string>, kinds: string -> ValueType, batch: Sets, created: Sets,
                     required: Required)
    requires PodInvariant(before, skipped, kinds, before.Keys, batch, created, required)
    ensures PodStage(before, skipped, kinds, batch + created)
  {
    forall t, m ensures PodTotal(before, skipped, kinds, t, m, Get(ValuesAt(batch + created, t), m)) {
      assert PodColumn(before, skipped, kinds, before.Keys, t, ValuesAt(before, t), ValuesAt(batch + created, t),
                       required);
      assert PodCell(before, m in skipped, kinds(m), before.Keys, t, m, Get(ValuesAt(before, t), m),
                     Get(ValuesAt(batch + created, t), m), (t, m) in required);
    }
  }

  lemma RegularPodOutcome(before: Sets, skipped: set<string>, kinds: string -> ValueType, ok: bool, after: Sets)
    requires PodRegular(before, kinds) && PodOutcome(before, skipped, ok, after)
    ensures ok && PodStage(before, skipped, kinds, after)
  {
    var r :| Outcome(PodSteps(skipped), PodStart(before), before.Keys, r) && PodEnd(r, ok, after);
    var order :| OrderOf(order, before.Keys) && Fold(PodSteps(skipped), PodStart(before), order) == r;
    RegularPodSteps(before, order, before.Keys, skipped, kinds);
    PodStageEnds(before, skipped, kinds, r.value.batch, r.value.created, r.value.required);
  }

  /** Merges a container into its pod, which is created if there is none. */
  method AddToPod(batch: DataBatch, newPods: Sets, key: Key, skipped: set<string>, required: Required)
    returns (ok: bool, pods: Sets, requiredNow: Required)
    requires key in batch.metricSets
    modifies batch
    ensures match PodStep(PodState(old(batch.metricSets), newPods, required), key, skipped)
            case Success(s) => ok && s == PodState(batch.metricSets, pods, requiredNow)
            case Failure => !ok
    ensures batch.metricSets.Keys == old(batch.metricSets).Keys
  {
    ok, pods, requiredNow := true, newPods, required;
    var metricSet := batch.metricSets[key];
    if PodOf(metricSet).None? {
      return;
    }
    var podKey := PodOf(metricSet).value;
    var pod;
    if podKey in batch.metricSets {
      pod := batch.metricSets[podKey];
    } else if podKey in newPods {
      pod := newPods[podKey];
    } else {
      pod := PodMetricSet(metricSet);
    }
    var values;
    ok, values, requiredNow := AddContainer(pod.values, metricSet.values, skipped, podKey, required);
    if ok {
      MergedIsThat(pod.values, metricSet.values, skipped, podKey, required, values, requiredNow);
      if podKey in batch.metricSets {
        batch.metricSets := batch.metricSets[podKey := pod.(values := values)];
      } else {
        pods := newPods[podKey := pod.(values := values)];
      }
    }
  }

  /**
   * Adds every container to its pod, for the metrics that the pod does not already have: one after the
   * other in some order, until one cannot be added. With uniform types the order does not matter.
   */
  method Process(batch: DataBatch, skippedMetrics: set<string>, ghost kinds: string -> ValueType) returns (ok: bool)
    modifies batch
    ensures PodOutcome(old(batch.metricSets), skippedMetrics, ok, batch.metricSets)
    ensures PodRegular(old(batch.metricSets), kinds) ==>
              ok && PodStage(old(batch.metricSets), skippedMetrics, kinds, batch.metricSets)
  {
    ghost var before := batch.metricSets;
    ok := AddContainers(batch, skippedMetrics);
    if PodRegular(before, kinds) {
      RegularPodOutcome(before, skippedMetrics, kinds, ok, batch.metricSets);
    }
  }

  method AddContainers(batch: DataBatch, skippedMetrics: set<string>) returns (ok: bool)
    modifies batch
    ensures PodOutcome(old(batch.metricSets), skippedMetrics, ok, batch.metricSets)
  {
    ghost var before, steps := batch.metricSets, PodSteps(skippedMetrics);
    var newPods: Sets := map[];
    var requireAggregate: Required := {};
    var todo := batch.metricSets.Keys;
    ghost var done: set<Key>, order: seq<Key> := {}, [];
    while todo != {}
      invariant todo == before.Keys - done && done <= before.Keys && batch.metricSets.Keys == before.Keys
      invariant StepsReach(steps, PodStart(before), order, done, PodState(batch.metricSets, newPods, requireAggregate))
    {
      ghost var some := Element(todo);
      var key :| key in todo;
      StepsGoOn(steps, PodStart(before), order, done, PodState(batch.metricSets, newPods, requireAggregate), key,
                before.Keys);
      ok, newPods, requireAggregate := AddToPod(batch, newPods, key, skippedMetrics, requireAggregate);
      if !ok {
        assert PodEnd(Failure, ok, batch.metricSets);
        return;
      }
      todo, done, order := todo - {key}, done + {key}, order + [key];
    }
    assert done == before.Keys;
    ghost var r := Success(PodState(batch.metricSets, newPods, requireAggregate));
    assert Outcome(steps, PodStart(before), before.Keys, r);
    batch.metricSets := batch.metricSets + newPods;
    ok := true;
    assert PodEnd(r, ok, batch.metricSets);
  }
}
