/** What first fit guarantees, for every order of the pods and every predicate. */
module FirstFitBounds {
  import opened Cluster
  import opened FirstFit

  /** The node that position `i` of a packing started from. */
  function Base(template: Info, upcoming: seq<Info>, i: nat): Info {
    if i < |upcoming| then upcoming[i] else template
  }

  // ----- conservation

  /** All pods on all nodes. */
  ghost function PodsOn(nodes: seq<Info>): multiset<Pod> {
    if nodes == [] then multiset{} else PodsOn(nodes[..|nodes| - 1]) + multiset(nodes[|nodes| - 1].pods)
  }

  ghost function Copies(pods: seq<Pod>, k: nat): multiset<Pod> {
    if k == 0 then multiset{} else Copies(pods, k - 1) + multiset(pods)
  }

  lemma {:induction false} PodsOnUpdate(nodes: seq<Info>, i: nat, pod: Pod)
    requires i < |nodes|
    ensures PodsOn(nodes[i := nodes[i].With(pod)]) == PodsOn(nodes) + multiset{pod}
  {
    var n := |nodes| - 1;
    var updated := nodes[i := nodes[i].With(pod)];
    if i == n {
      assert updated[..n] == nodes[..n];
    } else {
      PodsOnUpdate(nodes[..n], i, pod);
      assert updated[..n] == nodes[..n][i := nodes[i].With(pod)];
    }
  }

  /** One load of the template's own pods for each node in `nodes` beyond those in `from`. */
  ghost function Loads(template: Info, from: seq<Info>, nodes: seq<Info>): multiset<Pod>
    requires |from| <= |nodes|
  {
    Copies(template.pods, |nodes| - |from|)
  }

  lemma PlaceConserves(fits: Predicate<Node>, template: Info, nodes: seq<Info>, pod: Pod)
    ensures
      var after := Place(fits, template, nodes, pod);
      && |nodes| <= |after| <= |nodes| + 1
      && PodsOn(after) == PodsOn(nodes) + Loads(template, nodes, after) + multiset{pod}
  {
    var i := FirstAccepting(fits, nodes, pod);
    var after := Place(fits, template, nodes, pod);
    if i < |nodes| {
      PodsOnUpdate(nodes, i, pod);
    } else {
      assert after[..|nodes|] == nodes;
      assert Copies(template.pods, 1) == Copies(template.pods, 0) + multiset(template.pods);
    }
  }

  lemma {:induction false} CopiesAdd(pods: seq<Pod>, j: nat, k: nat)
    ensures Copies(pods, j + k) == Copies(pods, j) + Copies(pods, k)
  {
    if k > 0 {
      CopiesAdd(pods, j, k - 1);
    }
  }

  lemma LoadsAdd(template: Info, from: seq<Info>, nodes: seq<Info>, after: seq<Info>)
    requires |from| <= |nodes| <= |after|
    ensures Loads(template, from, after) == Loads(template, from, nodes) + Loads(template, nodes, after)
  {
    CopiesAdd(template.pods, |nodes| - |from|, |after| - |nodes|);
  }

  lemma Regroup<T>(up: multiset<T>, old1: multiset<T>, old2: multiset<T>, new1: multiset<T>, new2: multiset<T>)
    ensures up + old1 + old2 + new1 + new2 == up + (old1 + new1) + (old2 + new2)
  {
  }

  /**
   * The pods on all nodes: what the upcoming nodes carried, one load of the template for each further node,
   * and `pods`.
   */
  ghost predicate Conserved(template: Info, upcoming: seq<Info>, pods: seq<Pod>, nodes: seq<Info>) {
    && |upcoming| <= |nodes| <= |upcoming| + |pods|
    && PodsOn(nodes) == PodsOn(upcoming) + Loads(template, upcoming, nodes) + multiset(pods)
  }

  lemma SnocMultiset<T>(s: seq<T>, x: T)
    ensures multiset(s + [x]) == multiset(s) + multiset{x}
  {
  }

  lemma PlaceKeepsConserved(fits: Predicate<Node>, template: Info, upcoming: seq<Info>, pods: seq<Pod>,
                            nodes: seq<Info>, pod: Pod)
    requires Conserved(template, upcoming, pods, nodes)
    ensures Conserved(template, upcoming, pods + [pod], Place(fits, template, nodes, pod))
  {
    var after := Place(fits, template, nodes, pod);
    PlaceConserves(fits, template, nodes, pod);
    LoadsAdd(template, upcoming, nodes, after);
    SnocMultiset(pods, pod);
    Regroup(PodsOn(upcoming), Loads(template, upcoming, nodes), multiset(pods), Loads(template, nodes, after),
            multiset{pod});
  }

  /** Every pod ends up on exactly one node, next to what was there and one template load per new node. */
  lemma {:induction false} Conservation(fits: Predicate<Node>, template: Info, upcoming: seq<Info>, order: seq<Pod>)
    ensures Conserved(template, upcoming, order, PlaceAll(fits, template, upcoming, order))
  {
    if order != [] {
      var n := |order| - 1;
      Conservation(fits, template, upcoming, order[..n]);
      PlaceKeepsConserved(fits, template, upcoming, order[..n], PlaceAll(fits, template, upcoming, order[..n]),
                          order[n]);
      assert order == order[..n] + [order[n]];
    }
  }

  // ----- the first-fit discipline, read off the final nodes

  /** `pod` was refused by `info` at some moment after the node carried its first `from` pods. */
  predicate RefusedBy(fits: Predicate<Node>, info: Info, from: nat, pod: Pod) {
    exists m :: from <= m <= |info.pods| && !fits(pod, NodeInfo(info.node, info.pods[..m]))
  }

  /** A new node opens with one pod on top of the template's, an upcoming node with its own pods. */
  function OpeningLoad(template: Info, upcoming: seq<Info>, i: nat): nat {
    if i < |upcoming| then |upcoming[i].pods| else |template.pods| + 1
  }

  /**
   * Position `i` of a packing: the node is the one it started from, its old pods come first, and
   * every later pod passed the predicates on the pods before it.
   */
  predicate WellPacked(fits: Predicate<Node>, template: Info, upcoming: seq<Info>, i: nat, info: Info) {
    && info.node == Base(template, upcoming, i).node
    && Base(template, upcoming, i).pods <= info.pods
    && OpeningLoad(template, upcoming, i) <= |info.pods|
    && forall m :: OpeningLoad(template, upcoming, i) <= m < |info.pods| ==>
         fits(info.pods[m], NodeInfo(info.node, info.pods[..m]))
  }

  /** Whatever was put on node `j` had first been refused by the earlier node `i`. */
  predicate FirstChoice(fits: Predicate<Node>, template: Info, upcoming: seq<Info>, nodes: seq<Info>, i: nat, j: nat)
    requires i < j < |nodes|
  {
    forall m :: |Base(template, upcoming, j).pods| <= m < |nodes[j].pods| ==>
      RefusedBy(fits, nodes[i], OpeningLoad(template, upcoming, i), nodes[j].pods[m])
  }

  ghost predicate Disciplined(fits: Predicate<Node>, template: Info, upcoming: seq<Info>, nodes: seq<Info>) {
    && |upcoming| <= |nodes|
    && (forall i :: 0 <= i < |nodes| ==> WellPacked(fits, template, upcoming, i, nodes[i]))
    && (forall i, j :: 0 <= i < j < |nodes| ==> FirstChoice(fits, template, upcoming, nodes, i, j))
  }

  lemma PlaceKeepsWellPacked(fits: Predicate<Node>, template: Info, upcoming: seq<Info>, nodes: seq<Info>, pod: Pod,
                             i: nat)
    requires Disciplined(fits, template, upcoming, nodes)
    requires i < |Place(fits, template, nodes, pod)|
    ensures WellPacked(fits, template, upcoming, i, Place(fits, template, nodes, pod)[i])
  {
    var k := FirstAccepting(fits, nodes, pod);
    if i < |nodes| {
      assert WellPacked(fits, template, upcoming, i, nodes[i]);
      if i == k {
        WithKeepsWellPacked(fits, template, upcoming, i, nodes[i], pod);
      }
    }
  }

  lemma WithKeepsWellPacked(fits: Predicate<Node>, template: Info, upcoming: seq<Info>, i: nat, info: Info, pod: Pod)
    requires WellPacked(fits, template, upcoming, i, info) && fits(pod, info)
    ensures WellPacked(fits, template, upcoming, i, info.With(pod))
  {
    var after := info.With(pod);
    forall m | OpeningLoad(template, upcoming, i) <= m < |after.pods|
      ensures fits(after.pods[m], NodeInfo(after.node, after.pods[..m]))
    {
      assert after.pods[..m] == info.pods[..m];
      if m == |info.pods| {
        assert info.pods[..m] == info.pods;
        assert info == NodeInfo(info.node, info.pods);
      }
    }
  }

  lemma RefusalSurvives(fits: Predicate<Node>, info: Info, from: nat, pod: Pod, next: Pod)
    requires RefusedBy(fits, info, from, pod)
    ensures RefusedBy(fits, info.With(next), from, pod)
  {
    var m :| from <= m <= |info.pods| && !fits(pod, NodeInfo(info.node, info.pods[..m]));
    assert info.With(next).pods[..m] == info.pods[..m];
  }

  lemma RefusesNow(fits: Predicate<Node>, info: Info, from: nat, pod: Pod)
    requires from <= |info.pods| && !fits(pod, info)
    ensures RefusedBy(fits, info, from, pod)
  {
    assert info.pods[..|info.pods|] == info.pods;
    assert info == NodeInfo(info.node, info.pods[..|info.pods|]);
  }

  lemma PlaceKeepsFirstChoice(fits: Predicate<Node>, template: Info, upcoming: seq<Info>, nodes: seq<Info>, pod: Pod,
                              i: nat, j: nat)
    requires Disciplined(fits, template, upcoming, nodes)
    requires i < j < |Place(fits, template, nodes, pod)|
    ensures FirstChoice(fits, template, upcoming, Place(fits, template, nodes, pod), i, j)
  {
    var k := FirstAccepting(fits, nodes, pod);
    var after := Place(fits, template, nodes, pod);
    var from := OpeningLoad(template, upcoming, i);
    assert WellPacked(fits, template, upcoming, i, nodes[i]);
    assert j < |nodes| ==> FirstChoice(fits, template, upcoming, nodes, i, j);
    forall m | |Base(template, upcoming, j).pods| <= m < |after[j].pods|
      ensures RefusedBy(fits, after[i], from, after[j].pods[m])
    {
      if j < |nodes| && m < |nodes[j].pods| {
        assert RefusedBy(fits, nodes[i], from, nodes[j].pods[m]);
        if i == k {
          RefusalSurvives(fits, nodes[i], from, nodes[j].pods[m], pod);
        }
      } else {
        assert i < k;
        RefusesNow(fits, nodes[i], from, pod);
      }
    }
  }

  /** First fit, for any predicate: accepted where placed, and refused by every earlier node. */
  lemma {:induction false} FirstFitDiscipline(fits: Predicate<Node>, template: Info, upcoming: seq<Info>,
                                              order: seq<Pod>)
    ensures Disciplined(fits, template, upcoming, PlaceAll(fits, template, upcoming, order))
  {
    if order != [] {
      var n := |order| - 1;
      var before := PlaceAll(fits, template, upcoming, order[..n]);
      FirstFitDiscipline(fits, template, upcoming, order[..n]);
      var after := Place(fits, template, before, order[n]);
      forall i | 0 <= i < |after| ensures WellPacked(fits, template, upcoming, i, after[i]) {
        PlaceKeepsWellPacked(fits, template, upcoming, before, order[n], i);
      }
      forall i, j | 0 <= i < j < |after| ensures FirstChoice(fits, template, upcoming, after, i, j) {
        PlaceKeepsFirstChoice(fits, template, upcoming, before, order[n], i, j);
      }
    }
  }
}
