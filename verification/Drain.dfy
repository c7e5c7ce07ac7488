/** The drain simulation: can every pod of a node be placed elsewhere? (simulator/cluster.go) */
module Drain {
  import opened Cluster
  import opened Tracker
  import opened Wrappers

  /** A node info may outlive its node; it then has no node. */
  type Info = NodeInfo<Option<Node>>

  type Infos = map<string, Info>

  /** The predicate checker: the pod, the state its metadata was computed from, and the node info to check. */
  type Check = (Pod, Infos, Info) -> bool

  type Hints = map<(string, string), string>

  datatype NodeToBeRemoved = NodeToBeRemoved(node: string, podsToReschedule: seq<Pod>)

  function PodKey(pod: Pod): (string, string) {
    (pod.namespace, pod.name)
  }

  /** The copy of a pod that the simulation places: not bound to any node. */
  function Unbound(pod: Pod): Pod {
    pod.(spec := pod.spec.(nodeName := ""))
  }

  predicate Accepts(fits: Check, state: Infos, name: string, pod: Pod) {
    name in state && state[name].node.Some? && fits(pod, state, state[name])
  }

  /** The node infos once the first pods have been put on their targets. */
  function StateAfter(infos: Infos, pods: seq<Pod>, targets: seq<string>): Infos
    requires |targets| <= |pods|
  {
    if targets == [] then infos
    else
      var n := |targets| - 1;
      var before := StateAfter(infos, pods, targets[..n]);
      if targets[n] in before then before[targets[n] := before[targets[n]].With(Unbound(pods[n]))] else before
  }

  /** Target `i` is not the node to remove, and it accepted pod `i` with all earlier pods already placed. */
  predicate GoodTarget(fits: Check, removed: string, infos: Infos, pods: seq<Pod>, targets: seq<string>, i: nat)
    requires i < |targets| <= |pods|
  {
    targets[i] != removed && Accepts(fits, StateAfter(infos, pods, targets[..i]), targets[i], Unbound(pods[i]))
  }

  /** Where the previous hint for the pod still works, it is followed. */
  predicate FollowsHint(fits: Check, removed: string, infos: Infos, hints: Hints, pods: seq<Pod>, targets: seq<string>,
                        i: nat)
    requires i < |targets| <= |pods|
  {
    var key := PodKey(pods[i]);
    key in hints && hints[key] != removed
      && Accepts(fits, StateAfter(infos, pods, targets[..i]), hints[key], Unbound(pods[i]))
    ==> targets[i] == hints[key]
  }

  /** Each of the first pods has a good target, and hints were followed. */
  ghost predicate Placement(fits: Check, removed: string, infos: Infos, hints: Hints, pods: seq<Pod>,
                            targets: seq<string>)
  {
    && |targets| <= |pods|
    && (forall i :: 0 <= i < |targets| ==> GoodTarget(fits, removed, infos, pods, targets, i))
    && (forall i :: 0 <= i < |targets| ==> FollowsHint(fits, removed, infos, hints, pods, targets, i))
  }

  /** The pod after the placed ones is refused by every listed node but the one to remove. */
  predicate Stuck(fits: Check, removed: string, infos: Infos, nodes: seq<string>, pods: seq<Pod>, targets: seq<string>)
  {
    && |targets| < |pods|
    && forall n :: n in nodes && n != removed ==>
        !Accepts(fits, StateAfter(infos, pods, targets), n, Unbound(pods[|targets|]))
  }

  /** `hints` with every placed pod pointing at its target. */
  function WithHints(hints: Hints, pods: seq<Pod>, targets: seq<string>): Hints
    requires |targets| <= |pods|
  {
    if targets == [] then hints
    else
      var n := |targets| - 1;
      WithHints(hints, pods, targets[..n])[PodKey(pods[n]) := targets[n]]
  }

  /** The tracker once `user` was seen relying on each of `targets`. */
  function WithUsages(u: Usage, user: string, targets: seq<string>, timestamp: int): Usage {
    if targets == [] then u
    else AfterRegister(WithUsages(u, user, targets[..|targets| - 1], timestamp), user, targets[|targets| - 1],
                       timestamp)
  }

  // ----- the simulation

  /** Swaps every position with a random one. */
  method ShuffleNodes(nodes: seq<string>) returns (shuffled: seq<string>)
    ensures multiset(shuffled) == multiset(nodes)
  {
    var result := new string[|nodes|](i requires 0 <= i < |nodes| => nodes[i]);
    assert result[..] == nodes;
    for i := 0 to result.Length
      invariant multiset(result[..]) == multiset(nodes)
    {
      var j :| 0 <= j < result.Length;
      result[i], result[j] := result[j], result[i];
    }
    shuffled := result[..];
  }

  /** Looks for a node for one pod: the hinted node first, then the others in shuffled order. */
  method FindTarget(fits: Check, removed: string, state: Infos, oldHints: Hints, shuffled: seq<string>, pod: Pod)
    returns (target: Option<string>)
    ensures target.Some? ==> target.value != removed && Accepts(fits, state, target.value, pod)
    ensures target.None? ==> forall n :: n in shuffled && n != removed ==> !Accepts(fits, state, n, pod)
    ensures PodKey(pod) in oldHints && oldHints[PodKey(pod)] != removed
            && Accepts(fits, state, oldHints[PodKey(pod)], pod)
            ==> target == Some(oldHints[PodKey(pod)])
  {
    if PodKey(pod) in oldHints {
      var hinted := oldHints[PodKey(pod)];
      if hinted != removed && Accepts(fits, state, hinted, pod) {
        return Some(hinted);
      }
    }
    for k := 0 to |shuffled|
      invariant forall i :: 0 <= i < k && shuffled[i] != removed ==> !Accepts(fits, state, shuffled[i], pod)
    {
      if shuffled[k] != removed && Accepts(fits, state, shuffled[k], pod) {
        return Some(shuffled[k]);
      }
    }
    return None;
  }

  lemma PlacementSnoc(fits: Check, removed: string, infos: Infos, hints: Hints, pods: seq<Pod>, targets: seq<string>,
                      target: string)
    requires Placement(fits, removed, infos, hints, pods, targets) && |targets| < |pods|
    requires target != removed && Accepts(fits, StateAfter(infos, pods, targets), target, Unbound(pods[|targets|]))
    requires
      var key := PodKey(pods[|targets|]);
      key in hints && hints[key] != removed
        && Accepts(fits, StateAfter(infos, pods, targets), hints[key], Unbound(pods[|targets|]))
      ==> target == hints[key]
    ensures Placement(fits, removed, infos, hints, pods, targets + [target])
  {
    var after := targets + [target];
    forall i | 0 <= i < |after|
      ensures GoodTarget(fits, removed, infos, pods, after, i)
              && FollowsHint(fits, removed, infos, hints, pods, after, i)
    {
      assert after[..i] == targets[..i];
      if i == |targets| {
        assert targets[..i] == targets;
      } else {
        assert GoodTarget(fits, removed, infos, pods, targets, i)
               && FollowsHint(fits, removed, infos, hints, pods, targets, i);
      }
    }
  }

  /** What one more placed pod does to the simulated state, the hints and the tracker. */
  lemma PlacedOneMore(infos: Infos, hints: Hints, u: Usage, removed: string, pods: seq<Pod>, targets: seq<string>,
                      target: string, timestamp: int)
    requires |targets| < |pods| && target in StateAfter(infos, pods, targets)
    ensures
      var state := StateAfter(infos, pods, targets);
      StateAfter(infos, pods, targets + [target]) == state[target := state[target].With(Unbound(pods[|targets|]))]
    ensures WithHints(hints, pods, targets + [target]) ==
            WithHints(hints, pods, targets)[PodKey(pods[|targets|]) := target]
    ensures WithUsages(u, removed, targets + [target], timestamp) ==
            AfterRegister(WithUsages(u, removed, targets, timestamp), removed, target, timestamp)
  {
    assert (targets + [target])[..|targets|] == targets;
  }

  /** Puts the next pod on its target in the simulated state, and notes the hint and the usage. */
  method PlaceOn(target: string, removed: string, pods: seq<Pod>, state: Infos, hints: Hints, tracker: UsageTracker,
                 timestamp: int, ghost nodeInfos: Infos, ghost givenHints: Hints, ghost before: Usage,
                 ghost targets: seq<string>, k: nat)
    returns (newState: Infos, newHints: Hints)
    requires tracker.Valid() && target in state && k == |targets| < |pods|
    requires state == StateAfter(nodeInfos, pods, targets) && hints == WithHints(givenHints, pods, targets)
    requires tracker.contents == WithUsages(before, removed, targets, timestamp)
    modifies tracker.Repr
    ensures tracker.Valid() && fresh(tracker.Repr - old(tracker.Repr))
    ensures newState == StateAfter(nodeInfos, pods, targets + [target])
    ensures newHints == WithHints(givenHints, pods, targets + [target])
    ensures tracker.contents == WithUsages(before, removed, targets + [target], timestamp)
  {
    PlacedOneMore(nodeInfos, givenHints, before, removed, pods, targets, target, timestamp);
    newState := state[target := state[target].With(Unbound(pods[k]))];
    newHints := hints[PodKey(pods[k]) := target];
    tracker.RegisterUsage(removed, target, timestamp);
  }

  lemma StuckInAnyOrder(fits: Check, removed: string, infos: Infos, nodes: seq<string>, shuffled: seq<string>,
                        pods: seq<Pod>, targets: seq<string>)
    requires Stuck(fits, removed, infos, shuffled, pods, targets) && multiset(shuffled) == multiset(nodes)
    ensures Stuck(fits, removed, infos, nodes, pods, targets)
  {
    forall n | n in nodes ensures n in shuffled {
      assert n in multiset(nodes);
    }
  }

  /**
   * Places all pods of `removed` elsewhere, one after the other, or stops at the first that no
   * other node takes. `targets` are the nodes of the pods placed.
   */
  method FindPlaceFor(removed: string, pods: seq<Pod>, nodes: seq<string>, nodeInfos: Infos, fits: Check,
                      oldHints: Hints, newHints: Hints, tracker: UsageTracker, timestamp: int)
    returns (ok: bool, hints: Hints, ghost targets: seq<string>)
    requires tracker.Valid()
    modifies tracker.Repr
    ensures tracker.Valid() && fresh(tracker.Repr - old(tracker.Repr))
    ensures Placement(fits, removed, nodeInfos, oldHints, pods, targets)
    ensures ok ==> |targets| == |pods|
    ensures !ok ==> Stuck(fits, removed, nodeInfos, nodes, pods, targets)
    ensures hints == WithHints(newHints, pods, targets)
    ensures tracker.contents == WithUsages(old(tracker.contents), removed, targets, timestamp)
  {
    ghost var before := tracker.contents;
    var newNodeInfos := nodeInfos;
    var shuffled := ShuffleNodes(nodes);
    hints, targets := newHints, [];
    for k := 0 to |pods|
      invariant tracker.Valid() && fresh(tracker.Repr - old(tracker.Repr))
      invariant |targets| == k && Placement(fits, removed, nodeInfos, oldHints, pods, targets)
      invariant newNodeInfos == StateAfter(nodeInfos, pods, targets)
      invariant hints == WithHints(newHints, pods, targets)
      invariant tracker.contents == WithUsages(before, removed, targets, timestamp)
    {
      var target := FindTarget(fits, removed, newNodeInfos, oldHints, shuffled, Unbound(pods[k]));
      if target.None? {
        StuckInAnyOrder(fits, removed, nodeInfos, nodes, shuffled, pods, targets);
        return false, hints, targets;
      }
      PlacementSnoc(fits, removed, nodeInfos, oldHints, pods, targets, target.value);
      newNodeInfos, hints := PlaceOn(target.value, removed, pods, newNodeInfos, hints, tracker, timestamp,
                                     nodeInfos, newHints, before, targets, k);
      targets := targets + [target.value];
    }
    ok := true;
  }

  // ----- several candidates

  /** The entries of `s` whose flag in `flags` is `flag`. */
  function Select(s: seq<string>, flags: seq<bool>, flag: bool): seq<string>
    requires |flags| <= |s|
  {
    if flags == [] then []
    else
      var k := |flags| - 1;
      Select(s, flags[..k], flag) + (if flags[k] == flag then [s[k]] else [])
  }

  /** What the drain rules say about a node: the pods that would have to move, or that it cannot be drained. */
  type DrainRules = Info -> Option<seq<Pod>>

  /** The pods that leave `node` when it is drained; none if it cannot be drained. */
  function PodsOf(infos: Infos, podsToMove: DrainRules, node: string): seq<Pod> {
    if node in infos && podsToMove(infos[node]).Some? then podsToMove(infos[node]).value else []
  }

  predicate MayMove(infos: Infos, podsToMove: DrainRules, node: string) {
    node in infos && podsToMove(infos[node]).Some?
  }

  /**
   * `targets` justifies the verdict on `node`: a complete placement of its pods on other nodes, or
   * one that got stuck, or nothing at all because the rules forbid the drain.
   */
  ghost predicate Verdict(fits: Check, infos: Infos, podsToMove: DrainRules, hints: Hints, nodes: seq<string>,
                          node: string, removable: bool, targets: seq<string>)
  {
    var pods := PodsOf(infos, podsToMove, node);
    && Placement(fits, node, infos, hints, pods, targets)
    && (removable ==> MayMove(infos, podsToMove, node) && |targets| == |pods|)
    && (!removable && MayMove(infos, podsToMove, node) ==> Stuck(fits, node, infos, nodes, pods, targets))
  }

  /** The tracker once the placements of the first candidates were simulated. */
  function AllUsages(u: Usage, candidates: seq<string>, placements: seq<seq<string>>, timestamp: int): Usage
    requires |placements| <= |candidates|
  {
    if placements == [] then u
    else
      var k := |placements| - 1;
      WithUsages(AllUsages(u, candidates, placements[..k], timestamp), candidates[k], placements[k], timestamp)
  }

  /** The hints noted while the placements of the first candidates were simulated. */
  function AllHints(infos: Infos, podsToMove: DrainRules, candidates: seq<string>, placements: seq<seq<string>>): Hints
    requires |placements| <= |candidates|
  {
    if placements == [] then map[]
    else
      var k := |placements| - 1;
      var before := AllHints(infos, podsToMove, candidates, placements[..k]);
      var pods := PodsOf(infos, podsToMove, candidates[k]);
      if |placements[k]| <= |pods| then WithHints(before, pods, placements[k]) else before
  }

  lemma HintsOneMore(infos: Infos, podsToMove: DrainRules, candidates: seq<string>, placements: seq<seq<string>>,
                     targets: seq<string>)
    requires |placements| < |candidates| && |targets| <= |PodsOf(infos, podsToMove, candidates[|placements|])|
    ensures AllHints(infos, podsToMove, candidates, placements + [targets]) ==
            WithHints(AllHints(infos, podsToMove, candidates, placements),
                      PodsOf(infos, podsToMove, candidates[|placements|]), targets)
  {
    assert (placements + [targets])[..|placements|] == placements;
  }

  lemma UsagesOneMore(u: Usage, candidates: seq<string>, placements: seq<seq<string>>, targets: seq<string>,
                      timestamp: int)
    requires |placements| < |candidates|
    ensures AllUsages(u, candidates, placements + [targets], timestamp) ==
            WithUsages(AllUsages(u, candidates, placements, timestamp), candidates[|placements|], targets, timestamp)
  {
    assert (placements + [targets])[..|placements|] == placements;
  }

  ghost predicate Verdicts(fits: Check, infos: Infos, podsToMove: DrainRules, hints: Hints, nodes: seq<string>,
                           candidates: seq<string>, verdicts: seq<bool>, placements: seq<seq<string>>)
  {
    && |placements| == |verdicts| <= |candidates|
    && forall i :: 0 <= i < |verdicts| ==>
        Verdict(fits, infos, podsToMove, hints, nodes, candidates[i], verdicts[i], placements[i])
  }

  lemma VerdictsSnoc(fits: Check, infos: Infos, podsToMove: DrainRules, hints: Hints, nodes: seq<string>,
                     candidates: seq<string>, verdicts: seq<bool>, placements: seq<seq<string>>, removable: bool,
                     targets: seq<string>)
    requires Verdicts(fits, infos, podsToMove, hints, nodes, candidates, verdicts, placements)
             && |verdicts| < |candidates|
    requires Verdict(fits, infos, podsToMove, hints, nodes, candidates[|verdicts|], removable, targets)
    ensures Verdicts(fits, infos, podsToMove, hints, nodes, candidates, verdicts + [removable], placements + [targets])
  {
  }

  function Reschedules(infos: Infos, podsToMove: DrainRules, nodes: seq<string>): seq<NodeToBeRemoved> {
    seq(|nodes|, i requires 0 <= i < |nodes| => NodeToBeRemoved(nodes[i], PodsOf(infos, podsToMove, nodes[i])))
  }

  /** Decides the next candidate. */
  method CheckNext(candidates: seq<string>, k: nat, allNodes: seq<string>, infos: Infos, fits: Check,
                   podsToMove: DrainRules, oldHints: Hints, newHints: Hints, tracker: UsageTracker, timestamp: int,
                   ghost before: Usage, ghost placements: seq<seq<string>>)
    returns (removable: bool, hints: Hints, ghost targets: seq<string>)
    requires tracker.Valid() && k == |placements| < |candidates|
    requires tracker.contents == AllUsages(before, candidates, placements, timestamp)
    modifies tracker.Repr
    ensures tracker.Valid() && fresh(tracker.Repr - old(tracker.Repr))
    ensures Verdict(fits, infos, podsToMove, oldHints, allNodes, candidates[k], removable, targets)
    ensures |targets| <= |PodsOf(infos, podsToMove, candidates[k])|
    ensures hints == WithHints(newHints, PodsOf(infos, podsToMove, candidates[k]), targets)
    ensures tracker.contents == AllUsages(before, candidates, placements + [targets], timestamp)
  {
    var node := candidates[k];
    if node !in infos || podsToMove(infos[node]).None? {
      removable, hints, targets := false, newHints, [];
    } else {
      removable, hints, targets := FindPlaceFor(node, podsToMove(infos[node]).value, allNodes, infos, fits, oldHints,
                                                newHints, tracker, timestamp);
    }
    UsagesOneMore(before, candidates, placements, targets, timestamp);
  }

  /**
   * Goes through the candidates until `maxCount` removable ones are found. The verdicts, with the
   * placements that justify them, cover the candidates processed; the two results split exactly
   * those, in order.
   */
  method FindNodesToRemove(candidates: seq<string>, allNodes: seq<string>, infos: Infos, fits: Check,
                           podsToMove: DrainRules, maxCount: int, oldHints: Hints, tracker: UsageTracker,
                           timestamp: int)
    returns (result: seq<NodeToBeRemoved>, unremovable: seq<string>, newHints: Hints,
             ghost verdicts: seq<bool>, ghost placements: seq<seq<string>>)
    requires tracker.Valid()
    modifies tracker.Repr
    ensures tracker.Valid() && fresh(tracker.Repr - old(tracker.Repr))
    ensures Verdicts(fits, infos, podsToMove, oldHints, allNodes, candidates, verdicts, placements)
    ensures tracker.contents == AllUsages(old(tracker.contents), candidates, placements, timestamp)
    ensures newHints == AllHints(infos, podsToMove, candidates, placements)
    ensures SplitBy(candidates, verdicts, infos, podsToMove, result, unremovable)
    ensures |verdicts| < |candidates| ==> CountedTo(|result|, maxCount, verdicts, true)
    ensures |result| <= maxCount || |result| <= 1
  {
    result, unremovable, newHints, verdicts, placements := [], [], map[], [], [];
    ghost var before := tracker.contents;
    var k := 0;
    var enough := false;
    while k < |candidates| && !enough
      invariant tracker.Valid() && fresh(tracker.Repr - old(tracker.Repr))
      invariant k == |verdicts|
                && Verdicts(fits, infos, podsToMove, oldHints, allNodes, candidates, verdicts, placements)
      invariant tracker.contents == AllUsages(before, candidates, placements, timestamp)
      invariant newHints == AllHints(infos, podsToMove, candidates, placements)
      invariant SplitBy(candidates, verdicts, infos, podsToMove, result, unremovable)
      invariant CountedTo(|result|, maxCount, verdicts, enough)
    {
      var removable;
      ghost var targets;
      removable, newHints, targets := CheckNext(candidates, k, allNodes, infos, fits, podsToMove, oldHints, newHints,
                                                tracker, timestamp, before, placements);
      VerdictsSnoc(fits, infos, podsToMove, oldHints, allNodes, candidates, verdicts, placements, removable, targets);
      SplitOneMore(candidates, verdicts, infos, podsToMove, result, unremovable, removable);
      HintsOneMore(infos, podsToMove, candidates, placements, targets);
      verdicts, placements := verdicts + [removable], placements + [targets];
      if removable {
        result := result + [NodeToBeRemoved(candidates[k], PodsOf(infos, podsToMove, candidates[k]))];
        enough := |result| >= maxCount;
      } else {
        unremovable := unremovable + [candidates[k]];
      }
      k := k + 1;
    }
  }

  /** The processed candidates are split, in order, into the removable and the unremovable ones. */
  ghost predicate SplitBy(candidates: seq<string>, verdicts: seq<bool>, infos: Infos, podsToMove: DrainRules,
                          result: seq<NodeToBeRemoved>, unremovable: seq<string>)
  {
    && |verdicts| <= |candidates|
    && result == Reschedules(infos, podsToMove, Select(candidates, verdicts, true))
    && unremovable == Select(candidates, verdicts, false)
  }

  /** The search goes on below `maxCount` and ends with a removable candidate. */
  predicate CountedTo(found: nat, maxCount: int, verdicts: seq<bool>, enough: bool) {
    if enough then found >= maxCount && verdicts != [] && verdicts[|verdicts| - 1] && (found <= maxCount || found <= 1)
    else found < maxCount || found == 0
  }

  lemma SplitOneMore(candidates: seq<string>, verdicts: seq<bool>, infos: Infos, podsToMove: DrainRules,
                     result: seq<NodeToBeRemoved>, unremovable: seq<string>, removable: bool)
    requires SplitBy(candidates, verdicts, infos, podsToMove, result, unremovable) && |verdicts| < |candidates|
    ensures
      var node := candidates[|verdicts|];
      SplitBy(candidates, verdicts + [removable], infos, podsToMove,
              if removable then result + [NodeToBeRemoved(node, PodsOf(infos, podsToMove, node))] else result,
              if removable then unremovable else unremovable + [node])
  {
    assert (verdicts + [removable])[..|verdicts|] == verdicts;
  }
}
