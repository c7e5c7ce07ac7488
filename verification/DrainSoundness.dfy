/** What a successful drain simulation means. */
module DrainSoundness {
  import opened Cluster
  import opened Drain
  import opened Tracker
  import opened TrackerRuns

  /** The pods that were placed on node `n`, in order. */
  function PlacedOn(pods: seq<Pod>, targets: seq<string>, n: string): seq<Pod>
    requires |targets| <= |pods|
  {
    if targets == [] then []
    else
      var k := |targets| - 1;
      PlacedOn(pods, targets[..k], n) + (if targets[k] == n then [Unbound(pods[k])] else [])
  }

  lemma PlacementPrefix(fits: Check, removed: string, infos: Infos, hints: Hints, pods: seq<Pod>, targets: seq<string>,
                        k: nat)
    requires Placement(fits, removed, infos, hints, pods, targets) && k <= |targets|
    ensures Placement(fits, removed, infos, hints, pods, targets[..k])
  {
    forall i | 0 <= i < k
      ensures GoodTarget(fits, removed, infos, pods, targets[..k], i)
              && FollowsHint(fits, removed, infos, hints, pods, targets[..k], i)
    {
      assert targets[..k][..i] == targets[..i];
      assert GoodTarget(fits, removed, infos, pods, targets, i)
             && FollowsHint(fits, removed, infos, hints, pods, targets, i);
    }
  }

  /** The simulated state is the given one with each pod added to its target, and nothing else changed. */
  lemma {:induction false} OnlyTargetsGrow(fits: Check, removed: string, infos: Infos, hints: Hints, pods: seq<Pod>,
                                           targets: seq<string>, n: string)
    requires Placement(fits, removed, infos, hints, pods, targets)
    ensures
      var state := StateAfter(infos, pods, targets);
      && state.Keys == infos.Keys
      && (n in infos ==> state[n] == NodeInfo(infos[n].node, infos[n].pods + PlacedOn(pods, targets, n)))
  {
    if targets == [] {
      assert n in infos ==> infos[n].pods + [] == infos[n].pods;
    } else {
      var k := |targets| - 1;
      PlacementPrefix(fits, removed, infos, hints, pods, targets, k);
      OnlyTargetsGrow(fits, removed, infos, hints, pods, targets[..k], n);
      assert GoodTarget(fits, removed, infos, pods, targets, k);
    }
  }

  /** The node to remove receives none of its pods back. */
  lemma {:induction false} RemovedReceivesNothing(fits: Check, removed: string, infos: Infos, hints: Hints,
                                                  pods: seq<Pod>, targets: seq<string>)
    requires Placement(fits, removed, infos, hints, pods, targets)
    ensures PlacedOn(pods, targets, removed) == [] && removed !in targets
  {
    if targets != [] {
      var k := |targets| - 1;
      PlacementPrefix(fits, removed, infos, hints, pods, targets, k);
      RemovedReceivesNothing(fits, removed, infos, hints, pods, targets[..k]);
      assert GoodTarget(fits, removed, infos, pods, targets, k);
      assert targets == targets[..k] + [targets[k]];
    }
  }

  /** A predicate that enforces `within` only lets a pod onto a node that stays within. */
  ghost predicate EnforcesWithin(fits: Check, within: Info -> bool) {
    forall pod, state, info :: fits(pod, state, info) ==> within(info.With(pod))
  }

  /** Then every node that received a pod is within its limits at the end. */
  lemma {:induction false} ReceiversStayWithin(fits: Check, within: Info -> bool, removed: string, infos: Infos,
                                               hints: Hints, pods: seq<Pod>, targets: seq<string>, n: string)
    requires Placement(fits, removed, infos, hints, pods, targets)
    requires EnforcesWithin(fits, within) && n in targets
    ensures n in StateAfter(infos, pods, targets) && within(StateAfter(infos, pods, targets)[n])
  {
    var k := |targets| - 1;
    assert GoodTarget(fits, removed, infos, pods, targets, k);
    if targets[k] != n {
      assert targets == targets[..k] + [targets[k]];
      PlacementPrefix(fits, removed, infos, hints, pods, targets, k);
      ReceiversStayWithin(fits, within, removed, infos, hints, pods, targets[..k], n);
    }
  }

  /** If the pods have different names, each one's hint names the node it was placed on. */
  lemma {:induction false} HintsNameTargets(hints: Hints, pods: seq<Pod>, targets: seq<string>, i: nat)
    requires i < |targets| <= |pods|
    requires forall j :: i < j < |targets| ==> PodKey(pods[j]) != PodKey(pods[i])
    ensures PodKey(pods[i]) in WithHints(hints, pods, targets)
    ensures WithHints(hints, pods, targets)[PodKey(pods[i])] == targets[i]
  {
    var k := |targets| - 1;
    if i < k {
      HintsNameTargets(hints, pods, targets[..k], i);
    }
  }

  // ----- the usage records of a drain, seen as a run of the tracker

  function Usages(user: string, targets: seq<string>, timestamp: int): seq<Op> {
    seq(|targets|, i requires 0 <= i < |targets| => Register(user, targets[i], timestamp))
  }

  lemma UsagesSnoc(ops: seq<Op>, user: string, targets: seq<string>, timestamp: int)
    requires targets != []
    ensures
      var k := |targets| - 1;
      Run(ops + Usages(user, targets, timestamp)) ==
        Step(Run(ops + Usages(user, targets[..k], timestamp)), Register(user, targets[k], timestamp))
  {
    var k := |targets| - 1;
    assert ops + Usages(user, targets, timestamp) ==
           ops + Usages(user, targets[..k], timestamp) + [Register(user, targets[k], timestamp)];
    RunSnoc(ops + Usages(user, targets[..k], timestamp), Register(user, targets[k], timestamp));
  }

  /** The usage records of a drain are those of a run that registers its targets one by one. */
  lemma {:induction false} UsagesAreARun(ops: seq<Op>, user: string, targets: seq<string>, timestamp: int)
    ensures Run(ops + Usages(user, targets, timestamp)).usage == WithUsages(Run(ops).usage, user, targets, timestamp)
  {
    if targets == [] {
      assert ops + Usages(user, targets, timestamp) == ops;
    } else {
      UsagesAreARun(ops, user, targets[..|targets| - 1], timestamp);
      UsagesSnoc(ops, user, targets, timestamp);
    }
  }

  lemma {:induction false} UsagesAreLive(ops: seq<Op>, user: string, targets: seq<string>, timestamp: int,
                                         target: string)
    requires target in targets
    ensures (user, target) in Run(ops + Usages(user, targets, timestamp)).live
  {
    var k := |targets| - 1;
    UsagesSnoc(ops, user, targets, timestamp);
    if targets[k] != target {
      assert targets == targets[..k] + [targets[k]];
      UsagesAreLive(ops, user, targets[..k], timestamp, target);
    }
  }

  /**
   * After a drain simulation of `user` on a tracker in any reachable state, removing a node that
   * shares one of its targets makes the simulation's result be dropped.
   */
  lemma DrainIsInvalidatedBySharers(ops: seq<Op>, user: string, targets: seq<string>, timestamp: int,
                                    target: string, other: string, keys: set<string>)
    requires target in targets && user in keys
    requires (other, target) in Run(ops).live
    ensures user in Invalidated(WithUsages(Run(ops).usage, user, targets, timestamp), other, keys)
  {
    var all := ops + Usages(user, targets, timestamp);
    UsagesAreARun(ops, user, targets, timestamp);
    UsagesAreLive(ops, user, targets, timestamp, target);
    RegistrationsKeepPairs(ops, user, targets, timestamp, (other, target));
    assert SharesTarget(Run(all).live, other, user);
    RemovalInvalidatesSharers(all, other, keys, user);
  }

  lemma {:induction false} RegistrationsKeepPairs(ops: seq<Op>, user: string, targets: seq<string>, timestamp: int,
                                                  pair: (string, string))
    requires pair in Run(ops).live
    ensures pair in Run(ops + Usages(user, targets, timestamp)).live
  {
    if targets == [] {
      assert ops + Usages(user, targets, timestamp) == ops;
    } else {
      RegistrationsKeepPairs(ops, user, targets[..|targets| - 1], timestamp, pair);
      UsagesSnoc(ops, user, targets, timestamp);
    }
  }
}
