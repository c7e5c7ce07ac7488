/** Batches of metric sets, and the step that adds one set to another (heapster/metrics/processors/helper.go). */
module MetricSets {
  import opened SumOver
  import opened Wrappers

  /** The keys of a batch, one constructor for each key function. */
  datatype Key =
    | PodContainerKey(namespace: string, pod: string, container: string)
    | PodKey(namespace: string, pod: string)
    | NamespaceKey(namespace: string)
    | NodeKey(node: string)
    | NodeContainerKey(node: string, container: string)
    | ClusterKey

  datatype SetType = PodContainerSet | PodSet | NamespaceSet | NodeSet | ClusterSet | OtherSet

  datatype ValueType = ValueInt64 | ValueFloat | OtherValue

  datatype Value = Value(kind: ValueType, intValue: int, floatValue: real)

  type Values = map<string, Value>

  /** Of the labels, those that the aggregators look at have fields of their own. */
  datatype MetricSet = MetricSet(setType: Option<SetType>, namespaceName: Option<string>, podName: Option<string>,
                                 nodeName: Option<string>, labels: map<string, string>, values: Values)

  type Sets = map<Key, MetricSet>

  class DataBatch {
    var metricSets: Sets

    constructor (sets: Sets)
      ensures metricSets == sets
    {
      metricSets := sets;
    }
  }

  // ----- values

  predicate Addable(a: Value, b: Value) {
    a.kind == b.kind && a.kind != OtherValue
  }

  function Add(a: Value, b: Value): Value {
    match a.kind
    case ValueInt64 => a.(intValue := a.intValue + b.intValue)
    case ValueFloat => a.(floatValue := a.floatValue + b.floatValue)
    case OtherValue => a
  }

  /** The number a value stands for, integer or not. */
  function Amount(v: Value): real {
    if v.kind == ValueInt64 then v.intValue as real else v.floatValue
  }

  // ----- adding one set's metrics to another's

  /** `into` with one metric of `from` added, if both have it with the same type. */
  function WithMetric(into: Values, from: Values, m: string): Result<Values> {
    if m !in from then Success(into)
    else if m !in into then Success(into[m := from[m]])
    else if Addable(into[m], from[m]) then Success(into[m := Add(into[m], from[m])])
    else Failure
  }

  function WithMetrics(into: Values, from: Values, metrics: seq<string>): Result<Values> {
    if metrics == [] then Success(into)
    else
      match WithMetrics(into, from, metrics[..|metrics| - 1])
      case Success(values) => WithMetric(values, from, metrics[|metrics| - 1])
      case Failure => Failure
  }

  /** Adds the listed metrics; fails at the first whose types do not agree. */
  method Aggregate(src: Values, dst: Values, metricsToAggregate: seq<string>) returns (ok: bool, values: Values)
    ensures if ok then WithMetrics(dst, src, metricsToAggregate) == Success(values)
            else WithMetrics(dst, src, metricsToAggregate) == Failure
  {
    values := dst;
    for k := 0 to |metricsToAggregate|
      invariant WithMetrics(dst, src, metricsToAggregate[..k]) == Success(values)
    {
      var metricName := metricsToAggregate[k];
      assert metricsToAggregate[..k + 1][..k] == metricsToAggregate[..k];
      if metricName in src {
        var metricValue := src[metricName];
        if metricName in values {
          var aggregatedValue := values[metricName];
          if aggregatedValue.kind != metricValue.kind || aggregatedValue.kind == OtherValue {
            FailureStays(dst, src, metricsToAggregate, k + 1);
            return false, values;
          }
          values := values[metricName := Add(aggregatedValue, metricValue)];
        } else {
          values := values[metricName := metricValue];
        }
      }
    }
    assert metricsToAggregate[..|metricsToAggregate|] == metricsToAggregate;
    ok := true;
  }

  lemma {:induction false} FailureStays(into: Values, from: Values, metrics: seq<string>, k: nat)
    requires k <= |metrics| && WithMetrics(into, from, metrics[..k]) == Failure
    ensures WithMetrics(into, from, metrics) == Failure
  {
    if k < |metrics| {
      assert metrics[..|metrics| - 1][..k] == metrics[..k];
      FailureStays(into, from, metrics[..|metrics| - 1], k);
    } else {
      assert metrics[..k] == metrics;
    }
  }

  /** Values of each metric are all of the kind that `kinds` gives, and that can be added. */
  predicate Typed(values: Values, kinds: string -> ValueType) {
    forall m :: m in values ==> values[m].kind == kinds(m) != OtherValue
  }

  /** What one addition does to metric `m`. */
  function Added(into: Option<Value>, from: Option<Value>): Option<Value> {
    if from.None? then into else if into.None? then from else Some(Add(into.value, from.value))
  }

  /** `m` is listed exactly once. */
  predicate Once(metrics: seq<string>, m: string) {
    exists i :: 0 <= i < |metrics| && metrics[i] == m && forall j :: 0 <= j < |metrics| && metrics[j] == m ==> j == i
  }

  lemma TypedStep(into: Values, from: Values, x: string, kinds: string -> ValueType, m: string)
    requires Typed(into, kinds) && Typed(from, kinds)
    ensures WithMetric(into, from, x).Success? && Typed(WithMetric(into, from, x).value, kinds)
    ensures Get(WithMetric(into, from, x).value, m) == if m == x then Added(Get(into, m), Get(from, m))
            else Get(into, m)
  {
  }

  /**
   * With uniform types the addition succeeds; it adds a metric listed once, and touches no other that is
   * not listed.
   */
  lemma {:induction false} TypedAdd(into: Values, from: Values, metrics: seq<string>, kinds: string -> ValueType,
                                    m: string)
    requires Typed(into, kinds) && Typed(from, kinds)
    ensures WithMetrics(into, from, metrics).Success? && Typed(WithMetrics(into, from, metrics).value, kinds)
    ensures m !in metrics ==> Get(WithMetrics(into, from, metrics).value, m) == Get(into, m)
    ensures Once(metrics, m) ==> Get(WithMetrics(into, from, metrics).value, m) == Added(Get(into, m), Get(from, m))
  {
    if metrics != [] {
      var n := |metrics| - 1;
      TypedAdd(into, from, metrics[..n], kinds, m);
      TypedStep(WithMetrics(into, from, metrics[..n]).value, from, metrics[n], kinds, m);
      LastListed(metrics, m);
    }
  }

  /** A metric listed once is either the last one, or listed once before it. */
  lemma LastListed(metrics: seq<string>, m: string)
    requires metrics != []
    ensures m in metrics <==> m in metrics[..|metrics| - 1] || m == metrics[|metrics| - 1]
    ensures Once(metrics, m) ==>
              if m == metrics[|metrics| - 1] then m !in metrics[..|metrics| - 1] else Once(metrics[..|metrics| - 1], m)
  {
    assert metrics == metrics[..|metrics| - 1] + [metrics[|metrics| - 1]];
    if Once(metrics, m) && m != metrics[|metrics| - 1] {
      OnceInFront(metrics, m);
    }
  }

  lemma OnceInFront(metrics: seq<string>, m: string)
    requires metrics != [] && Once(metrics, m) && metrics[|metrics| - 1] != m
    ensures Once(metrics[..|metrics| - 1], m)
  {
    var i :| 0 <= i < |metrics| && metrics[i] == m && forall j :: 0 <= j < |metrics| && metrics[j] == m ==> j == i;
    assert metrics[..|metrics| - 1][i] == m;
  }

  // ----- totals

  /** How much of metric `m` the set at a key holds. */
  function AmountIn(sets: Sets, m: string): Key -> real {
    k => if k in sets && m in sets[k].values then Amount(sets[k].values[m]) else 0.0
  }

  /** The value `now` is what was there at first plus everything from the sets at `from`. */
  ghost predicate Totals(now: Option<Value>, base: Option<Value>, kind: ValueType, sets: Sets, m: string,
                         from: set<Key>)
  {
    && (now.Some? <==> base.Some? || from != {})
    && (now.Some? ==> now.value.kind == kind
                      && Amount(now.value) ==
                        (if base.Some? then Amount(base.value) else 0.0) + Sum(from, AmountIn(sets, m)))
  }

  /** One more set that has the metric. */
  lemma TotalsOneMore(now: Option<Value>, base: Option<Value>, kind: ValueType, sets: Sets, m: string, from: set<Key>,
                      k: Key)
    requires Totals(now, base, kind, sets, m, from) && kind != OtherValue
    requires k !in from && k in sets && m in sets[k].values && sets[k].values[m].kind == kind
    ensures Totals(Added(now, Some(sets[k].values[m])), base, kind, sets, m, from + {k})
  {
    SumInsert(from, AmountIn(sets, m), k);
  }
}
