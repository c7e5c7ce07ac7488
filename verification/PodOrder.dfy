/**
 * When the order in which containers are taken matters to their pod (heapster/metrics/processors/pod_aggregator.go):
 * for a metric that the pod did not have and that is not skipped, exactly if containers report it with
 * values of different types.
 */
module PodOrder {
  import opened Aggregators
  import opened Collections
  import opened MetricSets
  import opened Orders
  import opened PodAggregator
  import opened Wrappers

  // ----- one metric of one pod

  /** The first value is taken over; a later one is added, dropped for its type, or cannot be added. */
  function Merging(): Stepper<Option<Value>, Value> {
    (now: Option<Value>, v: Value) => Merge(now, Some(v), false, now.Some?)
  }

  function MergedOf(values: seq<Value>): Result<Option<Value>> {
    Fold(Merging(), None, values)
  }

  /** Both fail, or both end with the same type and amount. */
  predicate Agree(a: Result<Option<Value>>, b: Result<Option<Value>>) {
    if a.Failure? || b.Failure? then a == b else SameValue(a.value, b.value)
  }

  predicate SameValue(a: Option<Value>, b: Option<Value>) {
    if a.None? || b.None? then a == b else a.value.kind == b.value.kind && Amount(a.value) == Amount(b.value)
  }

  ghost predicate AllOf(values: seq<Value>, kind: ValueType) {
    forall v :: v in values ==> v.kind == kind
  }

  function AmountOfAll(values: seq<Value>): real {
    if values == [] then 0.0 else AmountOfAll(values[..|values| - 1]) + Amount(values[|values| - 1])
  }

  lemma {:induction false} AmountsAppend(a: seq<Value>, b: seq<Value>)
    ensures AmountOfAll(a + b) == AmountOfAll(a) + AmountOfAll(b)
  {
    if b == [] {
      assert a + b == a;
    } else {
      AmountsAppend(a, b[..|b| - 1]);
      assert (a + b)[..|a + b| - 1] == a + b[..|b| - 1];
    }
  }

  lemma {:induction false} AmountsPermuted(a: seq<Value>, b: seq<Value>)
    requires multiset(a) == multiset(b)
    ensures AmountOfAll(a) == AmountOfAll(b)
  {
    if a == [] {
      assert |multiset(b)| == |b|;
    } else {
      var i := MatchLast(a, b);
      AmountsPermuted(a[..|a| - 1], Without(b, i));
      AmountsAppend(b[..i], b[i + 1..]);
      AmountsAppend(b[..i] + [b[i]], b[i + 1..]);
      AmountsAppend(b[..i], [b[i]]);
      assert b == b[..i] + [b[i]] + b[i + 1..];
    }
  }

  /** Values of one type that can be added come to their sum. */
  lemma {:induction false} SumOfOneKind(values: seq<Value>, kind: ValueType)
    requires AllOf(values, kind) && kind != OtherValue
    ensures MergedOf(values).Success? && (MergedOf(values).value.None? <==> values == [])
    ensures values != [] ==> MergedOf(values).value.value.kind == kind
    ensures values != [] ==> Amount(MergedOf(values).value.value) == AmountOfAll(values)
  {
    if values != [] {
      SumOfOneKind(values[..|values| - 1], kind);
    }
  }

  /** Of values that cannot be added there may be one. */
  lemma {:induction false} OthersFail(values: seq<Value>)
    requires AllOf(values, OtherValue)
    ensures |values| <= 1 ==> MergedOf(values) == Success(if values == [] then None else Some(values[0]))
    ensures |values| >= 2 ==> MergedOf(values) == Failure
  {
    if values != [] {
      OthersFail(values[..|values| - 1]);
    }
  }

  /** The first value gives the type, and if that can be added nothing fails. */
  lemma {:induction false} FirstGivesType(values: seq<Value>)
    requires values != []
    ensures MergedOf(values).Success? ==>
              MergedOf(values).value.Some? && MergedOf(values).value.value.kind == values[0].kind
    ensures values[0].kind != OtherValue ==> MergedOf(values).Success?
  {
    var front := values[..|values| - 1];
    if front == [] {
      assert MergedOf(front) == Success(None);
    } else {
      FirstGivesType(front);
    }
  }

  lemma OneKindAgrees(a: seq<Value>, b: seq<Value>, kind: ValueType)
    requires multiset(a) == multiset(b) && AllOf(a, kind)
    ensures Agree(MergedOf(a), MergedOf(b))
  {
    assert |multiset(a)| == |a| && |multiset(b)| == |b|;
    forall v | v in b ensures v.kind == kind {
      assert v in multiset(b);
    }
    if kind == OtherValue {
      OthersFail(a);
      OthersFail(b);
      if |a| == 1 {
        assert a[0] in multiset(b);
      }
    } else {
      SumOfOneKind(a, kind);
      SumOfOneKind(b, kind);
      AmountsPermuted(a, b);
    }
  }

  lemma TwoKindsDisagree(a: seq<Value>, b: seq<Value>)
    requires a != [] && b != [] && a[0].kind != b[0].kind
    ensures !Agree(MergedOf(a), MergedOf(b))
  {
    FirstGivesType(a);
    FirstGivesType(b);
  }

  // ----- the containers of a batch

  /** The values of a metric that the containers of pod `t` report, in order. */
  function Carried(sets: Sets, order: seq<Key>, t: Key, m: string): seq<Value> {
    if order == [] then [] else Carried(sets, order[..|order| - 1], t, m) + CarriedBy(sets, order[|order| - 1], t, m)
  }

  function CarriedBy(sets: Sets, key: Key, t: Key, m: string): seq<Value> {
    if Carries(sets, key, t, m) then [sets[key].values[m]] else []
  }

  /** The set at `key` is a container of pod `t` and reports metric `m`. */
  predicate Carries(sets: Sets, key: Key, t: Key, m: string) {
    key in sets && PodOf(sets[key]) == Some(t) && m in sets[key].values
  }

  lemma CarriedSnoc(sets: Sets, order: seq<Key>, key: Key, t: Key, m: string)
    ensures Carried(sets, order + [key], t, m) == Carried(sets, order, t, m) + CarriedBy(sets, key, t, m)
  {
    assert (order + [key])[..|order|] == order;
  }

  lemma AppendOneMore(sets: Sets, a: seq<Key>, b: seq<Key>, key: Key, t: Key, m: string)
    requires Carried(sets, a + b, t, m) == Carried(sets, a, t, m) + Carried(sets, b, t, m)
    ensures Carried(sets, a + b + [key], t, m) == Carried(sets, a, t, m) + Carried(sets, b + [key], t, m)
  {
    CarriedSnoc(sets, a + b, key, t, m);
    CarriedSnoc(sets, b, key, t, m);
    Associates(Carried(sets, a, t, m), Carried(sets, b, t, m), CarriedBy(sets, key, t, m));
  }

  lemma {:induction false} CarriedAppend(sets: Sets, a: seq<Key>, b: seq<Key>, t: Key, m: string)
    ensures Carried(sets, a + b, t, m) == Carried(sets, a, t, m) + Carried(sets, b, t, m)
  {
    if b == [] {
      assert a + b == a;
    } else {
      var front, last := b[..|b| - 1], b[|b| - 1];
      assert a + b == a + front + [last] && b == front + [last];
      CarriedAppend(sets, a, front, t, m);
      AppendOneMore(sets, a, front, last, t, m);
    }
  }

  lemma Associates(a: seq<Value>, b: seq<Value>, c: seq<Value>)
    ensures a + b + c == a + (b + c)
  {
  }

  lemma CarriedOne(sets: Sets, key: Key, t: Key, m: string)
    ensures Carried(sets, [key], t, m) == CarriedBy(sets, key, t, m)
  {
    assert [key][..0] == [];
  }

  lemma CarriedMiddle(sets: Sets, front: seq<Key>, key: Key, rest: seq<Key>, t: Key, m: string)
    ensures multiset(Carried(sets, front + [key] + rest, t, m)) ==
            multiset(Carried(sets, front + rest, t, m)) + multiset(CarriedBy(sets, key, t, m))
  {
    CarriedAppend(sets, front, rest, t, m);
    CarriedAppend(sets, front + [key], rest, t, m);
    CarriedSnoc(sets, front, key, t, m);
    MiddleMoves(Carried(sets, front, t, m), CarriedBy(sets, key, t, m), Carried(sets, rest, t, m));
  }

  lemma MiddleMoves(a: seq<Value>, own: seq<Value>, b: seq<Value>)
    ensures multiset(a + own + b) == multiset(a + b) + multiset(own)
  {
  }

  lemma SameWithOneMore(sets: Sets, a: seq<Key>, key: Key, front: seq<Key>, rest: seq<Key>, t: Key, m: string)
    requires multiset(Carried(sets, a, t, m)) == multiset(Carried(sets, front + rest, t, m))
    ensures multiset(Carried(sets, a + [key], t, m)) == multiset(Carried(sets, front + [key] + rest, t, m))
  {
    CarriedSnoc(sets, a, key, t, m);
    CarriedMiddle(sets, front, key, rest, t, m);
  }

  lemma {:induction false} CarriedPermuted(sets: Sets, a: seq<Key>, b: seq<Key>, t: Key, m: string)
    requires multiset(a) == multiset(b)
    ensures multiset(Carried(sets, a, t, m)) == multiset(Carried(sets, b, t, m))
  {
    if a == [] {
      assert |multiset(b)| == |b|;
    } else {
      var i := MatchLast(a, b);
      var before, front, rest := a[..|a| - 1], b[..i], b[i + 1..];
      assert a == before + [b[i]] && b == front + [b[i]] + rest;
      CarriedPermuted(sets, before, front + rest, t, m);
      SameWithOneMore(sets, before, b[i], front, rest, t, m);
    }
  }

  lemma {:induction false} CarriedComesFrom(sets: Sets, order: seq<Key>, t: Key, m: string, v: Value)
    ensures v in Carried(sets, order, t, m) ==> exists k ::
              k in order && Carries(sets, k, t, m) && sets[k].values[m] == v
  {
    if order != [] {
      CarriedComesFrom(sets, order[..|order| - 1], t, m, v);
    }
  }

  /** An order of all keys that begins with `key`. */
  lemma OrderFrom(sets: Sets, key: Key, t: Key, m: string) returns (order: seq<Key>)
    requires Carries(sets, key, t, m)
    ensures OrderOf(order, sets.Keys) && Carried(sets, order, t, m) != []
    ensures Carried(sets, order, t, m)[0] == sets[key].values[m]
  {
    order := OrderOfAll([key], {key}, sets.Keys - {key});
    assert {key} + (sets.Keys - {key}) == sets.Keys;
    assert order == [key] + order[1..];
    CarriedAppend(sets, [key], order[1..], t, m);
    CarriedOne(sets, key, t, m);
  }

  /** All containers of the pod that report the metric report it with the same type. */
  ghost predicate OneKind(sets: Sets, t: Key, m: string) {
    forall k, l :: Carries(sets, k, t, m) && Carries(sets, l, t, m) ==> sets[k].values[m].kind == sets[l].values[m].kind
  }

  lemma OneKindIsCarried(sets: Sets, order: seq<Key>, t: Key, m: string) returns (kind: ValueType)
    requires OneKind(sets, t, m)
    ensures AllOf(Carried(sets, order, t, m), kind)
  {
    var values := Carried(sets, order, t, m);
    kind := if values == [] then OtherValue else values[0].kind;
    forall v | v in values ensures v.kind == kind {
      CarriedComesFrom(sets, order, t, m, v);
      CarriedComesFrom(sets, order, t, m, values[0]);
    }
  }

  lemma OneKindInOrders(sets: Sets, t: Key, m: string, a: seq<Key>, b: seq<Key>)
    requires OneKind(sets, t, m) && OrderOf(a, sets.Keys) && OrderOf(b, sets.Keys)
    ensures Agree(MergedOf(Carried(sets, a, t, m)), MergedOf(Carried(sets, b, t, m)))
  {
    var kind := OneKindIsCarried(sets, a, t, m);
    CarriedPermuted(sets, a, b, t, m);
    OneKindAgrees(Carried(sets, a, t, m), Carried(sets, b, t, m), kind);
  }

  /**
   * For a metric of a pod, the value, or the failure, is the same in every order of the containers,
   * exactly if all of them that report the metric report it with the same type.
   */
  lemma OrderMattersIff(sets: Sets, t: Key, m: string)
    ensures OneKind(sets, t, m) <==>
            forall a, b :: OrderOf(a, sets.Keys) && OrderOf(b, sets.Keys) ==>
              Agree(MergedOf(Carried(sets, a, t, m)), MergedOf(Carried(sets, b, t, m)))
  {
    if OneKind(sets, t, m) {
      forall a, b | OrderOf(a, sets.Keys) && OrderOf(b, sets.Keys)
        ensures Agree(MergedOf(Carried(sets, a, t, m)), MergedOf(Carried(sets, b, t, m)))
      {
        OneKindInOrders(sets, t, m, a, b);
      }
    } else {
      var k, l :| Carries(sets, k, t, m) && Carries(sets, l, t, m) && sets[k].values[m].kind != sets[l].values[m].kind;
      var a := OrderFrom(sets, k, t, m);
      var b := OrderFrom(sets, l, t, m);
      TwoKindsDisagree(Carried(sets, a, t, m), Carried(sets, b, t, m));
    }
  }

  // ----- the steps of the stage do just that for every metric of every pod

  /** The metric is summed up for the pod: it is not skipped, and the pod did not have it. */
  predicate Open(before: Sets, skipped: set<string>, t: Key, m: string) {
    m !in skipped && m !in ValuesAt(before, t)
  }

  ghost predicate CellIs(before: Sets, order: seq<Key>, skipped: set<string>, t: Key, m: string, now: Option<Value>,
                         required: bool)
  {
    if Open(before, skipped, t, m)
    then MergedOf(Carried(before, order, t, m)) == Success(now) && (required <==> now.Some?)
    else now == Get(ValuesAt(before, t), m) && !required
  }

  ghost predicate CellsAre(before: Sets, order: seq<Key>, skipped: set<string>, s: PodState) {
    forall t, m :: CellIs(before, order, skipped, t, m, Get(ValuesAt(s.batch + s.created, t), m), (t, m) in s.required)
  }

  ghost predicate Shaped(before: Sets, s: PodState) {
    OnlyValuesChanged(before, s.batch, IsPod) && s.created.Keys !! s.batch.Keys && CreatedArePods(s.created)
  }

  /** Merging a container into a pod merges its value of each metric. */
  lemma CellMerges(before: Sets, front: seq<Key>, key: Key, skipped: set<string>, t: Key, m: string, now: Option<Value>,
                   required: bool)
    requires CellIs(before, front, skipped, t, m, now, required) && key in before && PodOf(before[key]) == Some(t)
    ensures
      var after := Merge(now, Get(before[key].values, m), m in skipped, required);
      && (Open(before, skipped, t, m) ==> after == MergedOf(Carried(before, front + [key], t, m)))
      && (!Open(before, skipped, t, m) ==> after == Success(now))
      && (after.Success? ==> CellIs(before, front + [key], skipped, t, m, after.value,
                                    required || (m in before[key].values && m !in skipped && now.None?)))
  {
    var values := Carried(before, front, t, m);
    assert (front + [key])[..|front|] == front;
    if Carries(before, key, t, m) {
      if Open(before, skipped, t, m) {
        FoldSnoc(Merging(), None, values, before[key].values[m], now);
      }
    } else {
      assert values + [] == values;
    }
  }

  lemma OtherCellStays(before: Sets, front: seq<Key>, key: Key, skipped: set<string>, t: Key, m: string,
                       now: Option<Value>, required: bool)
    requires CellIs(before, front, skipped, t, m, now, required) && key in before && PodOf(before[key]) != Some(t)
    ensures CellIs(before, front + [key], skipped, t, m, now, required)
  {
    assert (front + [key])[..|front|] == front;
    assert Carried(before, front, t, m) + [] == Carried(before, front, t, m);
  }

  /** Each metric of each pod that is summed up was merged without a failure. */
  ghost predicate AllMerge(before: Sets, order: seq<Key>, skipped: set<string>) {
    forall t, m :: Open(before, skipped, t, m) ==> MergedOf(Carried(before, order, t, m)).Success?
  }

  lemma PassedOver(before: Sets, front: seq<Key>, key: Key, skipped: set<string>, s: PodState)
    requires Shaped(before, s) && CellsAre(before, front, skipped, s) && key in before && PodOf(before[key]).None?
    ensures PodStep(s, key, skipped) == Success(s) && CellsAre(before, front + [key], skipped, s)
  {
    assert PodOf(s.batch[key]) == PodOf(before[key]);
    forall t, m
      ensures CellIs(before, front + [key], skipped, t, m, Get(ValuesAt(s.batch + s.created, t), m),
                     (t, m) in s.required)
    {
      OtherCellStays(before, front, key, skipped, t, m, Get(ValuesAt(s.batch + s.created, t), m), (t, m) in s.required);
    }
  }

  /** The step for a container succeeds exactly if all its metrics can be merged. */
  lemma ContainerMerges(before: Sets, front: seq<Key>, key: Key, skipped: set<string>, s: PodState)
    requires Shaped(before, s) && CellsAre(before, front, skipped, s) && key in before && s.batch[key] == before[key]
    requires PodOf(before[key]).Some?
    ensures PodStep(s, key, skipped).Failure? ==> !AllMerge(before, front + [key], skipped)
    ensures PodStep(s, key, skipped).Success? ==>
              Shaped(before, PodStep(s, key, skipped).value)
                && CellsAre(before, front + [key], skipped, PodStep(s, key, skipped).value)
  {
    var t, now := PodOf(before[key]).value, ValuesAt(s.batch + s.created, PodOf(before[key]).value);
    var container := before[key].values;
    forall m ensures CellIs(before, front, skipped, t, m, Get(now, m), (t, m) in s.required) {}
    if m :| m in container && Merge(Get(now, m), Get(container, m), m in skipped, (t, m) in s.required).Failure? {
      CellMerges(before, front, key, skipped, t, m, Get(now, m), (t, m) in s.required);
      StepFails(s, key, skipped, m);
    } else {
      PodStepChanged(s, key, skipped);
      CellsGrow(before, front, key, skipped, s, PodStep(s, key, skipped).value);
    }
  }

  lemma StepFails(s: PodState, key: Key, skipped: set<string>, m: string)
    requires key in s.batch && PodOf(s.batch[key]).Some? && m in s.batch[key].values
    requires
      var t := PodOf(s.batch[key]).value;
      Merge(Get(ValuesAt(s.batch + s.created, t), m), Get(s.batch[key].values, m), m in skipped,
            (t, m) in s.required).Failure?
    requires s.created.Keys !! s.batch.Keys
    ensures PodStep(s, key, skipped).Failure?
  {
    var t := PodOf(s.batch[key]).value;
    var pod := if t in s.batch then s.batch[t] else if t in s.created then s.created[t] else PodMetricSet(s.batch[key]);
    assert pod.values == ValuesAt(s.batch + s.created, t);
  }

  lemma CellsGrow(before: Sets, front: seq<Key>, key: Key, skipped: set<string>, s: PodState, s': PodState)
    requires Shaped(before, s) && CellsAre(before, front, skipped, s) && key in before && PodOf(before[key]).Some?
    requires PodChanged(s.batch, s.created, before[key].values, skipped, PodOf(before[key]).value, s.required,
                        s'.batch, s'.created, s'.required)
    ensures CellsAre(before, front + [key], skipped, s')
  {
    var t := PodOf(before[key]).value;
    var now, after := ValuesAt(s.batch + s.created, t), ValuesAt(s'.batch + s'.created, t);
    forall u, m
      ensures CellIs(before, front + [key], skipped, u, m, Get(ValuesAt(s'.batch + s'.created, u), m),
                     (u, m) in s'.required)
    {
      assert CellIs(before, front, skipped, u, m, Get(ValuesAt(s.batch + s.created, u), m), (u, m) in s.required);
      if u == t {
        CellMerges(before, front, key, skipped, t, m, Get(now, m), (t, m) in s.required);
        MergedAt(now, before[key].values, skipped, t, s.required, after, s'.required, m);
      } else {
        OtherCellStays(before, front, key, skipped, u, m, Get(ValuesAt(s.batch + s.created, u), m),
                       (u, m) in s.required);
        assert ValuesAt(s'.batch + s'.created, u) == ValuesAt(s.batch + s.created, u);
        assert (u, m) in s'.required <==> (u, m) in s.required;
      }
    }
  }

  lemma FailureGoesOn(before: Sets, front: seq<Key>, key: Key, skipped: set<string>)
    requires !AllMerge(before, front, skipped)
    ensures !AllMerge(before, front + [key], skipped)
  {
    var t, m :| Open(before, skipped, t, m) && MergedOf(Carried(before, front, t, m)).Failure?;
    CarriedAppend(before, front, [key], t, m);
    Orders.FailureStays(Merging(), None, Carried(before, front, t, m), Carried(before, front + [key], t, m));
  }

  /**
   * In whatever order the sets of a batch are taken, the stage fails exactly if merging some metric of
   * some pod does, and else each pod has for each metric what merging gives, or what it had at first.
   */
  lemma {:induction false} StageMerges(before: Sets, order: seq<Key>, skipped: set<string>)
    requires Apart(before, PodOf, IsPod) && forall k :: k in order ==> k in before
    ensures
      var r := Fold(PodSteps(skipped), PodStart(before), order);
      && (r.Success? <==> AllMerge(before, order, skipped))
      && (r.Success? ==> Shaped(before, r.value) && CellsAre(before, order, skipped, r.value))
  {
    if order == [] {
      StageBegins(before, skipped);
    } else {
      var front, key := order[..|order| - 1], order[|order| - 1];
      assert order == front + [key];
      StageMerges(before, front, skipped);
      var r := Fold(PodSteps(skipped), PodStart(before), front);
      if r.Failure? {
        FailureGoesOn(before, front, key, skipped);
      } else if PodOf(before[key]).None? {
        PassedOver(before, front, key, skipped, r.value);
        CellsMeanMerged(before, order, skipped, r.value);
      } else {
        ContainerMerges(before, front, key, skipped, r.value);
        if PodStep(r.value, key, skipped).Success? {
          CellsMeanMerged(before, order, skipped, PodStep(r.value, key, skipped).value);
        }
      }
    }
  }

  lemma StageBegins(before: Sets, skipped: set<string>)
    ensures Shaped(before, PodStart(before)) && CellsAre(before, [], skipped, PodStart(before))
            && AllMerge(before, [], skipped)
  {
    assert before + map[] == before;
  }

  lemma CellsMeanMerged(before: Sets, order: seq<Key>, skipped: set<string>, s: PodState)
    requires CellsAre(before, order, skipped, s)
    ensures AllMerge(before, order, skipped)
  {
    forall t, m | Open(before, skipped, t, m) ensures MergedOf(Carried(before, order, t, m)).Success? {
      assert CellIs(before, order, skipped, t, m, Get(ValuesAt(s.batch + s.created, t), m), (t, m) in s.required);
    }
  }

  // ----- when the stage succeeds in every order with the same values

  ghost predicate SameEnds(a: Result<PodState>, b: Result<PodState>) {
    && a.Success? && b.Success?
    && forall t, m ::
      SameValue(Get(ValuesAt(a.value.batch + a.value.created, t), m),
                Get(ValuesAt(b.value.batch + b.value.created, t), m))
  }

  /** Every order succeeds, and all give the pods the same values. */
  ghost predicate Determined(before: Sets, skipped: set<string>) {
    forall a, b :: OrderOf(a, before.Keys) && OrderOf(b, before.Keys) ==>
      SameEnds(Fold(PodSteps(skipped), PodStart(before), a), Fold(PodSteps(skipped), PodStart(before), b))
  }

  /** Any two containers of a pod report a metric that is summed up for it with values that can be added. */
  ghost predicate AllAddable(before: Sets, skipped: set<string>) {
    forall t, m, k, l ::
      Open(before, skipped, t, m) && k != l && Carries(before, k, t, m) && Carries(before, l, t, m) ==>
      Addable(before[k].values[m], before[l].values[m])
  }

  /** Two carried values come from two containers. */
  lemma {:induction false} TwoCarriers(sets: Sets, order: seq<Key>, keys: set<Key>, t: Key, m: string)
    returns (k: Key, l: Key)
    requires OrderOf(order, keys) && |Carried(sets, order, t, m)| >= 2
    ensures k != l && Carries(sets, k, t, m) && Carries(sets, l, t, m)
  {
    var front, last := order[..|order| - 1], order[|order| - 1];
    OrderFront(order, keys);
    if Carries(sets, last, t, m) {
      var v := Carried(sets, front, t, m)[0];
      CarriedComesFrom(sets, front, t, m, v);
      k :| k in front && Carries(sets, k, t, m) && sets[k].values[m] == v;
      l := last;
      assert k in multiset(front);
    } else {
      k, l := TwoCarriers(sets, front, keys - {last}, t, m);
    }
  }

  lemma AddableOnesMerge(before: Sets, skipped: set<string>, order: seq<Key>)
    requires AllAddable(before, skipped) && OrderOf(order, before.Keys)
    ensures AllMerge(before, order, skipped)
  {
    forall t, m | Open(before, skipped, t, m) ensures MergedOf(Carried(before, order, t, m)).Success? {
      AddableAreOneKind(before, skipped, t, m);
      var kind := OneKindIsCarried(before, order, t, m);
      if kind == OtherValue {
        OthersFail(Carried(before, order, t, m));
        if |Carried(before, order, t, m)| >= 2 {
          var k, l := TwoCarriers(before, order, before.Keys, t, m);
          CarriedHas(before, order, k, t, m);
        }
      } else {
        SumOfOneKind(Carried(before, order, t, m), kind);
      }
    }
  }

  lemma AddableAreOneKind(before: Sets, skipped: set<string>, t: Key, m: string)
    requires AllAddable(before, skipped) && Open(before, skipped, t, m)
    ensures OneKind(before, t, m)
  {
    forall k, l | Carries(before, k, t, m) && Carries(before, l, t, m)
      ensures before[k].values[m].kind == before[l].values[m].kind
    {
      assert k != l ==> Addable(before[k].values[m], before[l].values[m]);
    }
  }

  lemma CarriedHas(sets: Sets, order: seq<Key>, key: Key, t: Key, m: string)
    requires OrderOf(order, sets.Keys) && Carries(sets, key, t, m)
    ensures sets[key].values[m] in Carried(sets, order, t, m)
  {
    var first := OrderFrom(sets, key, t, m);
    CarriedPermuted(sets, first, order, t, m);
    assert sets[key].values[m] in multiset(Carried(sets, order, t, m));
  }

  /** An order of all keys that begins with two containers whose values cannot be added. */
  lemma TwoOthersFail(sets: Sets, k: Key, l: Key, t: Key, m: string) returns (order: seq<Key>)
    requires k != l && Carries(sets, k, t, m) && Carries(sets, l, t, m) && OneKind(sets, t, m)
    requires sets[k].values[m].kind == OtherValue
    ensures OrderOf(order, sets.Keys) && MergedOf(Carried(sets, order, t, m)).Failure?
  {
    order := OrderOfAll([k, l], {k, l}, sets.Keys - {k, l});
    assert {k, l} + (sets.Keys - {k, l}) == sets.Keys;
    assert order == [k, l] + order[2..] && [k] + [l] == [k, l];
    CarriedAppend(sets, [k, l], order[2..], t, m);
    CarriedAppend(sets, [k], [l], t, m);
    CarriedOne(sets, k, t, m);
    CarriedOne(sets, l, t, m);
    var kind := OneKindIsCarried(sets, order, t, m);
    assert Carried(sets, order, t, m)[0].kind == OtherValue;
    OthersFail(Carried(sets, order, t, m));
  }

  /** The value that the stage leaves is the merged one. */
  lemma StageCell(before: Sets, order: seq<Key>, skipped: set<string>, t: Key, m: string)
    requires Apart(before, PodOf, IsPod) && OrderOf(order, before.Keys)
             && Fold(PodSteps(skipped), PodStart(before), order).Success?
    ensures
      var s := Fold(PodSteps(skipped), PodStart(before), order).value;
      CellIs(before, order, skipped, t, m, Get(ValuesAt(s.batch + s.created, t), m), (t, m) in s.required)
  {
    OrderIsWithin(order, before);
    StageMerges(before, order, skipped);
  }

  lemma OrderIsWithin(order: seq<Key>, before: Sets)
    requires OrderOf(order, before.Keys)
    ensures forall k :: k in order ==> k in before
  {
    forall k | k in order ensures k in before {
      assert k in multiset(order);
    }
  }

  lemma AddableSucceeds(before: Sets, skipped: set<string>, order: seq<Key>)
    requires Apart(before, PodOf, IsPod) && AllAddable(before, skipped) && OrderOf(order, before.Keys)
    ensures Fold(PodSteps(skipped), PodStart(before), order).Success?
  {
    OrderIsWithin(order, before);
    AddableOnesMerge(before, skipped, order);
    StageMerges(before, order, skipped);
  }

  lemma AddableCellsAgree(before: Sets, skipped: set<string>, a: seq<Key>, b: seq<Key>, r: PodState, q: PodState,
                          t: Key, m: string)
    requires Apart(before, PodOf, IsPod) && AllAddable(before, skipped) && OrderOf(a, before.Keys)
             && OrderOf(b, before.Keys)
    requires Fold(PodSteps(skipped), PodStart(before), a) == Success(r)
             && Fold(PodSteps(skipped), PodStart(before), b) == Success(q)
    ensures SameValue(Get(ValuesAt(r.batch + r.created, t), m), Get(ValuesAt(q.batch + q.created, t), m))
  {
    StageCell(before, a, skipped, t, m);
    StageCell(before, b, skipped, t, m);
    if Open(before, skipped, t, m) {
      AddableAreOneKind(before, skipped, t, m);
      OneKindInOrders(before, t, m, a, b);
    }
    CellsAgree(before, a, b, skipped, t, m, Get(ValuesAt(r.batch + r.created, t), m), (t, m) in r.required,
               Get(ValuesAt(q.batch + q.created, t), m), (t, m) in q.required);
  }

  lemma CellsAgree(before: Sets, a: seq<Key>, b: seq<Key>, skipped: set<string>, t: Key, m: string, now: Option<Value>,
                   required: bool, now': Option<Value>, required': bool)
    requires CellIs(before, a, skipped, t, m, now, required) && CellIs(before, b, skipped, t, m, now', required')
    requires Open(before, skipped, t, m) ==>
               Agree(MergedOf(Carried(before, a, t, m)), MergedOf(Carried(before, b, t, m)))
    ensures SameValue(now, now')
  {
  }

  lemma AddableIsDetermined(before: Sets, skipped: set<string>, a: seq<Key>, b: seq<Key>)
    requires Apart(before, PodOf, IsPod) && AllAddable(before, skipped) && OrderOf(a, before.Keys)
             && OrderOf(b, before.Keys)
    ensures SameEnds(Fold(PodSteps(skipped), PodStart(before), a), Fold(PodSteps(skipped), PodStart(before), b))
  {
    AddableSucceeds(before, skipped, a);
    AddableSucceeds(before, skipped, b);
    var r, q := Fold(PodSteps(skipped), PodStart(before), a).value, Fold(PodSteps(skipped), PodStart(before), b).value;
    forall t, m ensures SameValue(Get(ValuesAt(r.batch + r.created, t), m), Get(ValuesAt(q.batch + q.created, t), m)) {
      AddableCellsAgree(before, skipped, a, b, r, q, t, m);
    }
  }

  /** If the stage is determined, merging a metric that is summed up succeeds and agrees in all orders. */
  lemma DeterminedMerges(before: Sets, skipped: set<string>, t: Key, m: string, a: seq<Key>, b: seq<Key>)
    requires Apart(before, PodOf, IsPod) && Determined(before, skipped) && Open(before, skipped, t, m)
    requires OrderOf(a, before.Keys) && OrderOf(b, before.Keys)
    ensures MergedOf(Carried(before, a, t, m)).Success?
            && Agree(MergedOf(Carried(before, a, t, m)), MergedOf(Carried(before, b, t, m)))
  {
    var r, q := Fold(PodSteps(skipped), PodStart(before), a), Fold(PodSteps(skipped), PodStart(before), b);
    assert SameEnds(r, q);
    StageCell(before, a, skipped, t, m);
    StageCell(before, b, skipped, t, m);
    assert SameValue(Get(ValuesAt(r.value.batch + r.value.created, t), m),
                     Get(ValuesAt(q.value.batch + q.value.created, t), m));
  }

  /**
   * The stage succeeds in every order of the batch with the same values, exactly if any two containers of
   * a pod report each metric that is summed up for it with values that can be added.
   */
  lemma DeterminedIff(before: Sets, skipped: set<string>)
    requires Apart(before, PodOf, IsPod)
    ensures Determined(before, skipped) <==> AllAddable(before, skipped)
  {
    if AllAddable(before, skipped) {
      forall a, b | OrderOf(a, before.Keys) && OrderOf(b, before.Keys)
        ensures SameEnds(Fold(PodSteps(skipped), PodStart(before), a), Fold(PodSteps(skipped), PodStart(before), b))
      {
        AddableIsDetermined(before, skipped, a, b);
      }
    }
    if Determined(before, skipped) {
      forall t, m, k, l | Open(before, skipped, t, m) && k != l && Carries(before, k, t, m) && Carries(before, l, t, m)
        ensures Addable(before[k].values[m], before[l].values[m])
      {
        DeterminedIsAddable(before, skipped, t, m, k, l);
      }
    }
  }

  lemma DeterminedIsAddable(before: Sets, skipped: set<string>, t: Key, m: string, k: Key, l: Key)
    requires Apart(before, PodOf, IsPod) && Determined(before, skipped) && Open(before, skipped, t, m)
    requires k != l && Carries(before, k, t, m) && Carries(before, l, t, m)
    ensures Addable(before[k].values[m], before[l].values[m])
  {
    forall a, b | OrderOf(a, before.Keys) && OrderOf(b, before.Keys)
      ensures Agree(MergedOf(Carried(before, a, t, m)), MergedOf(Carried(before, b, t, m)))
    {
      DeterminedMerges(before, skipped, t, m, a, b);
    }
    OrderMattersIff(before, t, m);
    if before[k].values[m].kind == OtherValue {
      var order := TwoOthersFail(before, k, l, t, m);
      DeterminedMerges(before, skipped, t, m, order, order);
    }
  }

  // ----- two containers for which the order matters

  const POD := PodKey("namespace", "pod")

  /** A container of that pod with one metric. */
  function OneMetric(m: string, v: Value): MetricSet {
    MetricSet(Some(PodContainerSet), Some("namespace"), Some("pod"), None, map[], map[m := v])
  }

  /** The first container of a pod gives it its value. */
  lemma FirstCounts(s: PodState, key: Key, m: string, v: Value)
    requires key in s.batch && s.batch[key] == OneMetric(m, v) && POD !in s.batch && POD !in s.created
    ensures
      var s' := PodStep(s, key, {});
      s'.Success? && s'.value.batch == s.batch && s'.value.required == s.required + {(POD, m)}
      && s'.value.created.Keys == s.created.Keys + {POD} && s'.value.created[POD].values == map[m := v]
  {
    var none: Values := map[];
    var required := s.required + {(POD, m)};
    assert MergedValues(none, map[m := v], {}, POD, s.required) == Success(map[m := v]) by {
      SameValues(MergedValues(none, map[m := v], {}, POD, s.required).value, map[m := v]);
    }
    assert NewlyRequired(none, map[m := v], {}, POD) == {(POD, m)};
  }

  /** A later one of another type is dropped. */
  lemma OtherTypeIsDropped(s: PodState, key: Key, m: string, v: Value, w: Value)
    requires key in s.batch && s.batch[key] == OneMetric(m, w) && POD !in s.batch && POD in s.created
    requires s.created[POD].values == map[m := v] && v.kind != w.kind
    ensures
      var s' := PodStep(s, key, {});
      s'.Success? && s'.value.batch == s.batch && POD in s'.value.created && s'.value.created[POD].values == map[m := v]
  {
    assert MergedValues(map[m := v], map[m := w], {}, POD, s.required) == Success(map[m := v]) by {
      SameValues(MergedValues(map[m := v], map[m := w], {}, POD, s.required).value, map[m := v]);
    }
  }

  /** Of two containers with values of different types, the one that is taken first gives the pod its value. */
  lemma MixedTypesDependOnOrder(m: string, first: string, second: string, v: Value, w: Value)
    requires first != second && v.kind != w.kind
    ensures
      var a, b := PodContainerKey("namespace", "pod", first), PodContainerKey("namespace", "pod", second);
      var before := map[a := OneMetric(m, v), b := OneMetric(m, w)];
      var ab, ba := Fold(PodSteps({}), PodStart(before), [a, b]), Fold(PodSteps({}), PodStart(before), [b, a]);
      && ab.Success? && POD in ab.value.created && ab.value.created[POD].values == map[m := v]
      && ba.Success? && POD in ba.value.created && ba.value.created[POD].values == map[m := w]
  {
    var a, b := PodContainerKey("namespace", "pod", first), PodContainerKey("namespace", "pod", second);
    var before := map[a := OneMetric(m, v), b := OneMetric(m, w)];
    FirstThenOther(before, a, b, m, v, w);
    FirstThenOther(before, b, a, m, w, v);
  }

  lemma FirstThenOther(before: Sets, a: Key, b: Key, m: string, v: Value, w: Value)
    requires a in before && b in before && before[a] == OneMetric(m, v) && before[b] == OneMetric(m, w)
             && POD !in before
    requires v.kind != w.kind
    ensures
      var s := Fold(PodSteps({}), PodStart(before), [a, b]);
      s.Success? && POD in s.value.created && s.value.created[POD].values == map[m := v]
  {
    var start := PodStart(before);
    FirstCounts(start, a, m, v);
    FoldSnoc(PodSteps({}), start, [], a, start);
    assert [] + [a] == [a];
    var s := PodStep(start, a, {}).value;
    OtherTypeIsDropped(s, b, m, v, w);
    FoldSnoc(PodSteps({}), start, [a], b, s);
    assert [a] + [b] == [a, b];
  }
}
