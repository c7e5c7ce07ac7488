/** What the autoscaler does about lasting problems that the registry reports (core/utils.go). */
module ClusterFixes {
  import opened ClusterReadiness
  import opened ClusterState
  import opened Collections
  import opened FirstSeen

  /** A request to the provider to lower the target size of a group by `-delta`. */
  datatype Decrease = Decrease(group: string, delta: int)

  // ----- wrong group sizes

  /**
   * Every update, from one more than `limit` before `now` to the latest, found group `g` off its
   * target by the same pair of sizes, short by `-delta` nodes.
   */
  ghost predicate LastingShortage(history: seq<Event<string, SizeMismatch>>, g: string, delta: int, limit: int,
                                  now: int)
  {
    delta < 0 && exists what, start: nat ::
      StreakStart(history, g, what, start) && history[start].time + limit < now && what.current - what.expected == delta
  }

  /** The decreases that are due for `groups`, in order. */
  function Due(groups: seq<string>, sizes: map<string, Seen<SizeMismatch>>, limit: int, now: int): seq<Decrease> {
    if groups == [] then []
    else
      var g := groups[|groups| - 1];
      var before := Due(groups[..|groups| - 1], sizes, limit, now);
      if g in sizes && sizes[g].since + limit < now && sizes[g].what.current < sizes[g].what.expected
      then before + [Decrease(g, sizes[g].what.current - sizes[g].what.expected)]
      else before
  }

  lemma {:induction false} DueIff(groups: seq<string>, sizes: map<string, Seen<SizeMismatch>>, limit: int, now: int,
                                  d: Decrease)
    ensures d in Due(groups, sizes, limit, now) <==>
            d.group in groups && d.group in sizes && sizes[d.group].since + limit < now
            && d.delta == sizes[d.group].what.current - sizes[d.group].what.expected < 0
  {
    if groups != [] {
      var n := |groups| - 1;
      DueIff(groups[..n], sizes, limit, now, d);
      assert groups == groups[..n] + [groups[n]];
    }
  }

  /** A decrease is due exactly for a listed group with a lasting shortage of that size. */
  lemma DueIsLasting(groups: seq<string>, history: seq<Event<string, SizeMismatch>>, limit: int, now: int, d: Decrease)
    ensures d in Due(groups, After(history), limit, now) <==>
            d.group in groups && LastingShortage(history, d.group, d.delta, limit, now)
  {
    var g, sizes := d.group, After(history);
    DueIff(groups, sizes, limit, now, d);
    if d in Due(groups, sizes, limit, now) {
      var start := EntryIsStreakStart(history, g);
    }
    if LastingShortage(history, g, d.delta, limit, now) {
      var what, start: nat :|
        StreakStart(history, g, what, start) && history[start].time + limit < now
          && what.current - what.expected == d.delta;
      SinceIsExact(history, g, what, history[start].time);
    }
  }

  /**
   * Lowers the targets of groups with a lasting shortage; `accepts` is the provider's answer to a
   * decrease. Stops at the first refusal.
   */
  method FixNodeGroupSize(csr: ClusterStateRegistry, groups: seq<string>, accepts: Decrease -> bool, limit: int,
                          now: int)
    returns (fixed: bool, ok: bool, calls: seq<Decrease>)
    requires csr.Valid()
    ensures calls <= Due(groups, csr.incorrectNodeGroupSizes, limit, now)
    ensures ok ==> calls == Due(groups, csr.incorrectNodeGroupSizes, limit, now) && forall d :: d in calls ==>
              accepts(d)
    ensures !ok ==> calls != [] && !accepts(calls[|calls| - 1]) && forall i :: 0 <= i < |calls| - 1 ==>
              accepts(calls[i])
    ensures fixed <==> exists d :: d in calls && accepts(d)
    ensures forall d :: d in calls ==>
              d.group in groups && LastingShortage(csr.sizeHistory, d.group, d.delta, limit, now)
  {
    fixed, ok, calls := false, true, [];
    var sizes := csr.incorrectNodeGroupSizes;
    var k := 0;
    while k < |groups| && ok
      invariant k <= |groups|
      invariant ok ==> calls == Due(groups[..k], sizes, limit, now) && forall d :: d in calls ==> accepts(d)
      invariant !ok ==> calls != [] && calls <= Due(groups[..k], sizes, limit, now)
      invariant !ok ==> !accepts(calls[|calls| - 1]) && forall i :: 0 <= i < |calls| - 1 ==> accepts(calls[i])
      invariant fixed <==> exists d :: d in calls && accepts(d)
    {
      var id := groups[k];
      assert groups[..k + 1][..k] == groups[..k];
      k := k + 1;
      if id in sizes && sizes[id].since + limit < now {
        var delta := sizes[id].what.current - sizes[id].what.expected;
        if delta < 0 {
          calls := calls + [Decrease(id, delta)];
          ok := accepts(Decrease(id, delta));
          fixed := fixed || ok;
        }
      }
    }
    DuePrefix(groups, sizes, limit, now, k);
    assert groups[..|groups|] == groups;
    forall d | d in calls ensures d.group in groups && LastingShortage(csr.sizeHistory, d.group, d.delta, limit, now) {
      assert d in Due(groups, sizes, limit, now);
      DueIsLasting(groups, csr.sizeHistory, limit, now, d);
    }
  }

  lemma {:induction false} DuePrefix(groups: seq<string>, sizes: map<string, Seen<SizeMismatch>>, limit: int, now: int,
                                     k: nat)
    requires k <= |groups|
    ensures Due(groups[..k], sizes, limit, now) <= Due(groups, sizes, limit, now)
  {
    if k < |groups| {
      var n := |groups| - 1;
      DuePrefix(groups[..n], sizes, limit, now, k);
      assert groups[..n][..k] == groups[..k];
    } else {
      assert groups[..k] == groups;
    }
  }

  // ----- unregistered nodes

  /** Every update, from one more than `limit` before `now` to the latest, found instance `id` unregistered. */
  ghost predicate LastingUnregistered(history: seq<Event<string, string>>, id: string, limit: int, now: int) {
    exists start: nat :: StreakStart(history, id, id, start) && history[start].time + limit < now
  }

  lemma OverdueIsLasting(history: seq<Event<string, string>>, id: string, limit: int, now: int)
    requires id in After(history) ==> After(history)[id].what == id
    ensures (id in After(history) && After(history)[id].since + limit < now) <==>
            LastingUnregistered(history, id, limit, now)
  {
    if id in After(history) {
      var start := EntryIsStreakStart(history, id);
    }
    if LastingUnregistered(history, id, limit, now) {
      var start: nat :| StreakStart(history, id, id, start) && history[start].time + limit < now;
      SinceIsExact(history, id, id, history[start].time);
    }
  }

  /** The sizes of the groups at the provider; a group without an entry does not answer. */
  class Cloud {
    var targetSize: map<string, int>
    const minSize: string -> int
    /** The deletions that the provider refuses. */
    const refuses: set<string>

    constructor (targetSize: map<string, int>, minSize: string -> int, refuses: set<string>)
      ensures this.targetSize == targetSize && this.minSize == minSize && this.refuses == refuses
    {
      this.targetSize, this.minSize, this.refuses := targetSize, minSize, refuses;
    }

    method DeleteNodes(group: string, id: string) returns (ok: bool)
      requires group in targetSize
      modifies this
      ensures ok <==> id !in refuses
      ensures targetSize == if ok then old(targetSize)[group := old(targetSize)[group] - 1] else old(targetSize)
    {
      ok := id !in refuses;
      if ok {
        targetSize := targetSize[group := targetSize[group] - 1];
      }
    }
  }

  predicate Overdue(unregistered: map<string, Seen<string>>, id: string, limit: int, now: int) {
    id in unregistered && unregistered[id].since + limit < now
  }

  function RemovedFrom(p: Provider, removed: set<string>, g: string): set<string> {
    set id | id in removed && p.groupOf(id) == Group(g)
  }

  /** `sizes` once the instances in `removed` are gone, never taken below the minimum by a removal. */
  ghost predicate Shrunk(p: Provider, before: map<string, int>, sizes: map<string, int>, minSize: string -> int,
                         removed: set<string>)
  {
    && sizes.Keys == before.Keys
    && (forall g :: g in sizes ==> sizes[g] == before[g] - |RemovedFrom(p, removed, g)|)
    && (forall g :: g in sizes ==> sizes[g] == before[g] || sizes[g] >= minSize(g))
  }

  /** There was no way to remove `id`: it has no group, or its group does not answer or is at its minimum. */
  predicate CannotRemove(p: Provider, sizes: map<string, int>, minSize: string -> int, id: string) {
    var lookup := p.groupOf(id);
    lookup.NoGroup? || (lookup.Group? && (lookup.id !in sizes || sizes[lookup.id] <= minSize(lookup.id)))
  }

  lemma ShrinkOne(p: Provider, before: map<string, int>, sizes: map<string, int>, minSize: string -> int,
                  removed: set<string>, g: string, id: string)
    requires Shrunk(p, before, sizes, minSize, removed)
    requires g in sizes && sizes[g] > minSize(g) && p.groupOf(id) == Group(g) && id !in removed
    ensures Shrunk(p, before, sizes[g := sizes[g] - 1], minSize, removed + {id})
  {
    forall h | h in sizes
      ensures |RemovedFrom(p, removed + {id}, h)| == |RemovedFrom(p, removed, h)| + (if h == g then 1 else 0)
    {
      OneMoreRemoved(p, removed, id, g, h);
    }
  }

  lemma OneMoreRemoved(p: Provider, removed: set<string>, id: string, g: string, h: string)
    requires p.groupOf(id) == Group(g) && id !in removed
    ensures |RemovedFrom(p, removed + {id}, h)| == |RemovedFrom(p, removed, h)| + (if h == g then 1 else 0)
  {
    if h == g {
      assert RemovedFrom(p, removed + {id}, h) == RemovedFrom(p, removed, h) + {id};
      AddOneSize(RemovedFrom(p, removed, h), id);
    } else {
      assert RemovedFrom(p, removed + {id}, h) == RemovedFrom(p, removed, h);
    }
  }

  datatype Outcome = Removed | Skipped | Failed

  /** Tries to remove one instance from its group. */
  method RemoveOne(p: Provider, cloud: Cloud, id: string, ghost before: map<string, int>, ghost removed: set<string>)
    returns (outcome: Outcome)
    requires Shrunk(p, before, cloud.targetSize, cloud.minSize, removed) && id !in removed
    modifies cloud
    ensures Shrunk(p, before, cloud.targetSize, cloud.minSize, if outcome.Removed? then removed + {id} else removed)
    ensures forall g :: g in cloud.targetSize ==> cloud.targetSize[g] <= old(cloud.targetSize)[g]
    ensures outcome.Removed? ==> p.groupOf(id).Group?
    ensures outcome.Skipped? ==> CannotRemove(p, cloud.targetSize, cloud.minSize, id)
    ensures outcome.Failed? ==> p.groupOf(id).LookupError? || id in cloud.refuses
  {
    var lookup := p.groupOf(id);
    if lookup.LookupError? {
      return Failed;
    }
    if lookup.NoGroup? || lookup.id !in cloud.targetSize || cloud.minSize(lookup.id) >= cloud.targetSize[lookup.id] {
      return Skipped;
    }
    ShrinkOne(p, before, cloud.targetSize, cloud.minSize, removed, lookup.id, id);
    var ok := cloud.DeleteNodes(lookup.id, id);
    outcome := if ok then Removed else Failed;
  }

  lemma NothingRemoved(p: Provider, sizes: map<string, int>, minSize: string -> int)
    ensures Shrunk(p, sizes, sizes, minSize, {})
  {
    forall g ensures RemovedFrom(p, {}, g) == {} {}
  }

  /** Removes the instances that stayed unregistered for too long, as far as group minimums and the provider allow. */
  method RemoveOldUnregisteredNodes(csr: ClusterStateRegistry, p: Provider, cloud: Cloud, limit: int, now: int)
    returns (removedAny: bool, ok: bool, ghost removed: set<string>)
    requires csr.Valid()
    modifies cloud
    ensures removedAny <==> removed != {}
    ensures forall id :: id in removed ==> LastingUnregistered(csr.unregisteredHistory, id, limit, now)
    ensures Shrunk(p, old(cloud.targetSize), cloud.targetSize, cloud.minSize, removed)
    ensures ok ==> forall id :: Overdue(csr.unregisteredNodes, id, limit, now) ==>
                     id in removed || CannotRemove(p, cloud.targetSize, cloud.minSize, id)
    ensures !ok ==> exists id ::
              Overdue(csr.unregisteredNodes, id, limit, now) && (p.groupOf(id).LookupError? || id in cloud.refuses)
  {
    removedAny, ok, removed := false, true, {};
    var unregistered := csr.unregisteredNodes;
    var todo := unregistered.Keys;
    NothingRemoved(p, cloud.targetSize, cloud.minSize);
    while todo != {} && ok
      invariant todo <= unregistered.Keys && todo !! removed
      invariant removedAny <==> removed != {}
      invariant forall id :: id in removed ==> Overdue(unregistered, id, limit, now)
      invariant Shrunk(p, old(cloud.targetSize), cloud.targetSize, cloud.minSize, removed)
      invariant ok ==> forall id :: Overdue(unregistered, id, limit, now) ==>
                         id in todo || id in removed || CannotRemove(p, cloud.targetSize, cloud.minSize, id)
      invariant !ok ==> exists id ::
                  Overdue(unregistered, id, limit, now) && (p.groupOf(id).LookupError? || id in cloud.refuses)
      decreases todo
    {
      var id :| id in todo;
      todo := todo - {id};
      if unregistered[id].since + limit < now {
        var outcome := RemoveOne(p, cloud, id, old(cloud.targetSize), removed);
        if outcome.Removed? {
          removed := removed + {id};
          removedAny := true;
        }
        ok := !outcome.Failed?;
      }
    }
    forall id | id in removed ensures LastingUnregistered(csr.unregisteredHistory, id, limit, now) {
      assert Overdue(unregistered, id, limit, now);
      OverdueIsLasting(csr.unregisteredHistory, id, limit, now);
    }
  }
}
