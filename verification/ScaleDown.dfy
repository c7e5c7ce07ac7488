/**
 * Which nodes are unneeded, since when, and which of them are removed (core/scale_down.go).
 *
 * The ghost history of a `ScaleDown` object records its evaluations and everything that made it
 * forget nodes; the ghost operations are those performed on its usage tracker.
 */
module ScaleDown {
  import opened Cluster
  import opened Drain
  import opened DrainSoundness
  import opened NodeDeletion
  import opened ScaleDownLimits
  import opened Tracker
  import opened TrackerRuns
  import opened Wrappers
  import FirstSeen

  datatype Unneeded = Unneeded

  type Event = FirstSeen.Event<string, Unneeded>

  datatype Settings = Settings(unneededTime: int, unreadyTime: int, recheckTimeout: int,
                               nonEmptyCandidates: int, poolOf: nat -> int, poolMinCount: int,
                               maxEmptyBulkDelete: nat)

  /**
   * What the cluster and the provider show during one call: the nodes, the pods on them, the
   * scheduler predicates, the drain rules, and the properties of nodes the decisions depend on.
   */
  datatype View = View(nodes: seq<string>, infos: Infos, fits: Check, podsToMove: DrainRules, empty: string -> bool,
                       beingDeleted: string -> bool, disabled: string -> bool, ready: string -> bool,
                       busy: Info -> bool, groups: Provider, delta: (string, set<string>) -> Option<Delta>)
  {
    /** The provider, with the resources freed by a node computed for the given resource names. */
    function ProviderFor(resources: set<string>): Provider {
      groups.(delta := (n: string) => delta(n, resources))
    }
  }

  /** The elements of `s` that are to be kept, in order. */
  function Kept(s: seq<string>, keep: string -> bool): seq<string> {
    if s == [] then [] else Kept(s[..|s| - 1], keep) + (if keep(s[|s| - 1]) then [s[|s| - 1]] else [])
  }

  lemma {:induction false} KeptExactly(s: seq<string>, keep: string -> bool, x: string)
    ensures x in Kept(s, keep) <==> x in s && keep(x)
  {
    if s != [] {
      KeptExactly(s[..|s| - 1], keep, x);
      assert s == s[..|s| - 1] + [s[|s| - 1]];
    }
  }

  lemma {:induction false} KeptSame(s: seq<string>, keep: string -> bool, alike: string -> bool)
    requires forall x :: keep(x) == alike(x)
    ensures Kept(s, keep) == Kept(s, alike)
  {
    if s != [] {
      KeptSame(s[..|s| - 1], keep, alike);
    }
  }

  lemma KeptSnoc(s: seq<string>, k: nat, keep: string -> bool)
    requires k < |s|
    ensures Kept(s[..k + 1], keep) == Kept(s[..k], keep) + (if keep(s[k]) then [s[k]] else [])
  {
    assert s[..k + 1][..k] == s[..k];
  }

  // ----- verdicts of the drain simulation, without their order

  /** The simulation justifies the verdict on node `n` with some placement of its pods. */
  ghost predicate Justified(view: View, hints: Hints, n: string, removable: bool) {
    exists targets :: Verdict(view.fits, view.infos, view.podsToMove, hints, view.nodes, n, removable, targets)
  }

  lemma {:induction false} SelectExactly(s: seq<string>, flags: seq<bool>, flag: bool, n: string)
    requires |flags| <= |s|
    ensures n in Select(s, flags, flag) <==> exists i :: 0 <= i < |flags| && s[i] == n && flags[i] == flag
  {
    if flags != [] {
      var k := |flags| - 1;
      SelectExactly(s, flags[..k], flag, n);
    }
  }

  lemma SelectedAreJustified(view: View, hints: Hints, candidates: seq<string>, verdicts: seq<bool>,
                             placements: seq<seq<string>>, flag: bool, n: string)
    requires Verdicts(view.fits, view.infos, view.podsToMove, hints, view.nodes, candidates, verdicts, placements)
    requires n in Select(candidates, verdicts, flag)
    ensures n in candidates && Justified(view, hints, n, flag)
  {
    SelectExactly(candidates, verdicts, flag, n);
    var i :| 0 <= i < |verdicts| && candidates[i] == n && verdicts[i] == flag;
    assert Verdict(view.fits, view.infos, view.podsToMove, hints, view.nodes, candidates[i], verdicts[i],
                   placements[i]);
  }

  lemma AllAreSelected(candidates: seq<string>, verdicts: seq<bool>, n: string)
    requires |verdicts| == |candidates| && n in candidates
    ensures n in Select(candidates, verdicts, true) || n in Select(candidates, verdicts, false)
  {
    var i :| 0 <= i < |candidates| && candidates[i] == n;
    SelectExactly(candidates, verdicts, verdicts[i], n);
  }

  lemma {:induction false} SelectAtMost(s: seq<string>, flags: seq<bool>, flag: bool)
    requires |flags| <= |s|
    ensures |Select(s, flags, flag)| <= |flags|
  {
    if flags != [] {
      SelectAtMost(s, flags[..|flags| - 1], flag);
    }
  }

  function Names(nodes: seq<NodeToBeRemoved>): seq<string> {
    seq(|nodes|, i requires 0 <= i < |nodes| => nodes[i].node)
  }

  /** The operations a drain simulation performs on the tracker. */
  function AllOps(candidates: seq<string>, placements: seq<seq<string>>, timestamp: int): seq<Op>
    requires |placements| <= |candidates|
  {
    if placements == [] then []
    else
      var k := |placements| - 1;
      AllOps(candidates, placements[..k], timestamp) + Usages(candidates[k], placements[k], timestamp)
  }

  lemma AllUsagesStep(u: Usage, candidates: seq<string>, placements: seq<seq<string>>, timestamp: int)
    requires |placements| <= |candidates| && placements != []
    ensures
      var k := |placements| - 1;
      AllUsages(u, candidates, placements, timestamp) ==
        WithUsages(AllUsages(u, candidates, placements[..k], timestamp), candidates[k], placements[k], timestamp)
  {
  }

  lemma AllOpsStep(ops: seq<Op>, candidates: seq<string>, placements: seq<seq<string>>, timestamp: int)
    requires |placements| <= |candidates| && placements != []
    ensures
      var k := |placements| - 1;
      ops + AllOps(candidates, placements, timestamp) ==
        ops + AllOps(candidates, placements[..k], timestamp) + Usages(candidates[k], placements[k], timestamp)
  {
  }

  lemma {:induction false} AllUsagesAreARun(ops: seq<Op>, candidates: seq<string>, placements: seq<seq<string>>,
                                            timestamp: int)
    requires |placements| <= |candidates|
    ensures Run(ops + AllOps(candidates, placements, timestamp)).usage ==
            AllUsages(Run(ops).usage, candidates, placements, timestamp)
  {
    if placements == [] {
      assert ops + [] == ops;
    } else {
      var k := |placements| - 1;
      AllUsagesAreARun(ops, candidates, placements[..k], timestamp);
      UsagesAreARun(ops + AllOps(candidates, placements[..k], timestamp), candidates[k], placements[k], timestamp);
      AllOpsStep(ops, candidates, placements, timestamp);
      AllUsagesStep(Run(ops).usage, candidates, placements, timestamp);
    }
  }

  /** The tracker shows what the operations on it leave behind. */
  ghost predicate IsRun(u: Usage, ops: seq<Op>) {
    u == Run(ops).usage
  }

  lemma CleanUpIsAStep(u: Usage, ops: seq<Op>, cutoff: int)
    requires IsRun(u, ops)
    ensures IsRun(AfterCleanUp(u, cutoff), ops + [Op.CleanUp(cutoff)])
  {
    RunSnoc(ops, Op.CleanUp(cutoff));
  }

  lemma UnregisterIsAStep(u: Usage, ops: seq<Op>, node: string)
    requires IsRun(u, ops)
    ensures IsRun(AfterUnregister(u, node), ops + [Op.Unregister(node)])
  {
    RunSnoc(ops, Op.Unregister(node));
  }

  /** After these operations, none of the unneeded nodes shares a live target with `node`. */
  ghost predicate NoneShares(ops: seq<Op>, node: string, unneeded: map<string, int>) {
    forall n :: n in unneeded ==> !SharesTarget(Run(ops).live, node, n)
  }

  lemma SharersForgotten(u: Usage, ops: seq<Op>, node: string, keys: set<string>, left: map<string, int>)
    requires IsRun(u, ops)
    requires forall n :: n in left ==> n in keys && n !in Invalidated(u, node, keys)
    ensures NoneShares(ops, node, left)
  {
    forall n | n in left ensures !SharesTarget(Run(ops).live, node, n) {
      if SharesTarget(Run(ops).live, node, n) {
        RemovalInvalidatesSharers(ops, node, keys, n);
      }
    }
  }

  /** What is forgotten together with `node`. */
  function ForgottenWith(u: Usage, node: string, keys: set<string>): set<string> {
    Invalidated(u, node, keys) + {node}
  }

  lemma RemovalRecorded(u: Usage, ops: seq<Op>, node: string, before: map<string, int>, history: seq<Event>,
                        left: map<string, int>)
    requires IsRun(u, ops) && Remembers(before, history) && left == before - ForgottenWith(u, node, before.Keys)
    ensures IsRun(AfterUnregister(u, node), ops + [Op.Unregister(node)])
    ensures Remembers(left, history + [FirstSeen.Forget(ForgottenWith(u, node, before.Keys))])
    ensures NoneShares(ops, node, left)
  {
    UnregisterIsAStep(u, ops, node);
    ForgettingRemembered(before, history, ForgottenWith(u, node, before.Keys));
    SharersForgotten(u, ops, node, before.Keys, left);
  }

  lemma SimulationIsARun(u: Usage, ops: seq<Op>, candidates: seq<string>, placements: seq<seq<string>>, timestamp: int)
    requires |placements| <= |candidates| && IsRun(u, ops)
    ensures IsRun(AllUsages(u, candidates, placements, timestamp), ops + AllOps(candidates, placements, timestamp))
  {
    AllUsagesAreARun(ops, candidates, placements, timestamp);
  }

  /** What one simulation over several candidates produced. */
  datatype Simulation = Simulation(found: seq<NodeToBeRemoved>, refused: seq<string>, hints: Hints)

  const NO_SIMULATION := Simulation([], [], map[])

  ghost predicate SimulatedBy(view: View, hints: Hints, candidates: seq<string>, maxCount: int, timestamp: int,
                              sim: Simulation, ops: seq<Op>, verdicts: seq<bool>, placements: seq<seq<string>>)
  {
    && Verdicts(view.fits, view.infos, view.podsToMove, hints, view.nodes, candidates, verdicts, placements)
    && SplitBy(candidates, verdicts, view.infos, view.podsToMove, sim.found, sim.refused)
    && (|verdicts| < |candidates| ==> CountedTo(|sim.found|, maxCount, verdicts, true))
    && sim.hints == AllHints(view.infos, view.podsToMove, candidates, placements)
    && ops == AllOps(candidates, placements, timestamp)
  }

  /**
   * `sim` is a possible result of simulating the drains of `candidates` until `maxCount` removable
   * ones are found, and `ops` are the usages it registers in the tracker.
   */
  ghost predicate Simulated(view: View, hints: Hints, candidates: seq<string>, maxCount: int, timestamp: int,
                            sim: Simulation, ops: seq<Op>)
  {
    exists verdicts, placements ::
      SimulatedBy(view, hints, candidates, maxCount, timestamp, sim, ops, verdicts, placements)
  }

  lemma SplitNames(candidates: seq<string>, verdicts: seq<bool>, infos: Infos, podsToMove: DrainRules,
                   result: seq<NodeToBeRemoved>, unremovable: seq<string>)
    requires SplitBy(candidates, verdicts, infos, podsToMove, result, unremovable)
    ensures Names(result) == Select(candidates, verdicts, true)
    ensures forall i :: 0 <= i < |result| ==> result[i].podsToReschedule == PodsOf(infos, podsToMove, result[i].node)
  {
  }

  /** Found nodes are removable and refused nodes are not, each for a reason the simulation gives. */
  lemma SimulationJustifies(view: View, hints: Hints, candidates: seq<string>, maxCount: int, timestamp: int,
                            sim: Simulation, ops: seq<Op>, n: string)
    requires Simulated(view, hints, candidates, maxCount, timestamp, sim, ops)
    ensures n in Names(sim.found) ==> n in candidates && Justified(view, hints, n, true)
    ensures n in sim.refused ==> n in candidates && Justified(view, hints, n, false)
  {
    var verdicts, placements :| SimulatedBy(view, hints, candidates, maxCount, timestamp, sim, ops, verdicts,
                                            placements);
    SplitNames(candidates, verdicts, view.infos, view.podsToMove, sim.found, sim.refused);
    if n in Names(sim.found) {
      SelectedAreJustified(view, hints, candidates, verdicts, placements, true, n);
    }
    if n in sim.refused {
      SelectedAreJustified(view, hints, candidates, verdicts, placements, false, n);
    }
  }

  /** If as many nodes may be found as there are, or none was found, then every candidate got its verdict. */
  lemma EveryCandidateDecided(view: View, hints: Hints, candidates: seq<string>, maxCount: int, timestamp: int,
                              sim: Simulation, ops: seq<Op>, n: string)
    requires Simulated(view, hints, candidates, maxCount, timestamp, sim, ops)
    requires maxCount >= |candidates| || sim.found == []
    ensures n in candidates ==> n in Names(sim.found) || n in sim.refused
  {
    var verdicts, placements :| SimulatedBy(view, hints, candidates, maxCount, timestamp, sim, ops, verdicts,
                                            placements);
    SplitNames(candidates, verdicts, view.infos, view.podsToMove, sim.found, sim.refused);
    SelectAtMost(candidates, verdicts, true);
    assert |Names(sim.found)| == |sim.found|;
    if |verdicts| == |candidates| && n in candidates {
      AllAreSelected(candidates, verdicts, n);
    }
  }

  // ----- how long nodes have been unneeded

  /** The map of times says what the history says. */
  ghost predicate Remembers(unneeded: map<string, int>, history: seq<Event>) {
    && unneeded.Keys == FirstSeen.After(history).Keys
    && forall n :: n in unneeded ==> unneeded[n] == FirstSeen.After(history)[n].since
  }

  /** Every evaluation over a span strictly longer than `span` before `now` found `n` unneeded. */
  ghost predicate LongUnneeded(history: seq<Event>, n: string, span: int, now: int) {
    exists start: nat :: FirstSeen.SeenSince(history, n, Unneeded, start) && history[start].time + span < now
  }

  function Evaluation(now: int, unneeded: seq<string>): Event {
    FirstSeen.Observe(now, map n | n in unneeded :: Unneeded)
  }

  /** Since `before`, nodes were only forgotten. */
  ghost predicate OnlyForgets(before: seq<Event>, after: seq<Event>) {
    before <= after && forall i :: |before| <= i < |after| ==> after[i].Forget?
  }

  const RESET: Event := FirstSeen.Reset

  lemma AfterSnoc(history: seq<Event>, e: Event)
    ensures FirstSeen.After(history + [e]) == FirstSeen.Track(FirstSeen.After(history), e)
  {
    assert (history + [e])[..|history|] == history;
  }

  /** The times after an evaluation: the known ones of nodes that stay unneeded, the present for the others. */
  lemma EvaluationRemembered(before: map<string, int>, after: map<string, int>, history: seq<Event>, now: int,
                             unneeded: seq<string>)
    requires Remembers(before, history)
    requires forall n :: n in after <==> n in unneeded
    requires forall n :: n in after ==> after[n] == if n in before then before[n] else now
    ensures Remembers(after, history + [Evaluation(now, unneeded)])
  {
    var e := Evaluation(now, unneeded);
    AfterSnoc(history, e);
    var known := FirstSeen.After(history);
    forall n | n in known ensures known[n].what == Unneeded {
      match known[n].what case Unneeded =>
    }
  }

  lemma ForgettingRemembered(before: map<string, int>, history: seq<Event>, keys: set<string>)
    requires Remembers(before, history)
    ensures Remembers(before - keys, history + [FirstSeen.Forget(keys)])
  {
    AfterSnoc(history, FirstSeen.Forget(keys));
  }

  /** A remembered time that is old enough means a long time unneeded. */
  lemma OldMeansLong(unneeded: map<string, int>, history: seq<Event>, n: string, span: int, now: int)
    requires Remembers(unneeded, history)
    requires n in unneeded && unneeded[n] + span < now
    ensures LongUnneeded(history, n, span, now)
  {
    var start := FirstSeen.EntryIsStreakStart(history, n);
    match FirstSeen.After(history)[n].what case Unneeded =>
    assert FirstSeen.SeenSince(history, n, Unneeded, start);
  }

  // ----- the decisions

  function RefusedUntil(refused: map<string, int>, now: int): string -> bool {
    n => n in refused && refused[n] > now
  }

  function RecentlyRefused(view: View, refused: map<string, int>, now: int): string -> bool {
    n => n in view.nodes && n in refused && refused[n] > now
  }

  /** Refusals stand for nodes that are still there and, when the node is checked, while their time has not come. */
  function StillRefused(view: View, nodesToCheck: seq<string>, now: int, refused: map<string, int>): map<string, int> {
    map n | n in refused && n in view.nodes && (n in nodesToCheck ==> refused[n] > now) :: refused[n]
  }

  /** Newly refused nodes get a new time. */
  ghost predicate RefusalsAdded(before: map<string, int>, refused: seq<string>, until: int, after: map<string, int>) {
    && (forall n :: n in after <==> n in before || n in refused)
    && (forall n :: n in after ==> after[n] == if n in refused then until else before[n])
  }

  function StillListed(refused: map<string, int>, nodes: seq<string>): map<string, int> {
    map n | n in refused && n in nodes :: refused[n]
  }

  /** Neither going away nor protected, and little used. */
  function LittleUsed(view: View): string -> bool {
    n => !view.beingDeleted(n) && !view.disabled(n) && n in view.infos && !view.busy(view.infos[n])
  }

  /** The nodes considered now: little used, and not refused recently. */
  function SuitableNodes(view: View, refused: map<string, int>, now: int, nodesToCheck: seq<string>): seq<string> {
    Kept(Kept(nodesToCheck, Not(RecentlyRefused(view, refused, now))), LittleUsed(view))
  }

  function Not(p: string -> bool): string -> bool {
    n => !p(n)
  }

  function In(names: seq<string>): string -> bool {
    n => n in names
  }

  function KeyOf(m: map<string, int>): string -> bool {
    n => n in m
  }

  /** The suitable nodes that run nothing of their own, as many as their groups can spare. */
  function EmptyNodes(view: View, suitable: seq<string>): seq<string> {
    Bulk(view.ProviderFor({}), map[], Kept(suitable, view.empty), |suitable|)
  }

  function NonEmptyNodes(view: View, suitable: seq<string>): seq<string> {
    Kept(suitable, Not(In(EmptyNodes(view, suitable))))
  }

  /** The nodes simulated without a cap: those already unneeded, or all if the number is not to be limited. */
  function CurrentCandidates(settings: Settings, unneeded: map<string, int>, nodes: seq<string>): seq<string> {
    if settings.nonEmptyCandidates <= 0 then nodes else Kept(nodes, KeyOf(unneeded))
  }

  function OtherCandidates(settings: Settings, unneeded: map<string, int>, nodes: seq<string>): seq<string> {
    if settings.nonEmptyCandidates <= 0 then [] else Kept(nodes, Not(KeyOf(unneeded)))
  }

  function PoolSize(settings: Settings, view: View): int {
    var size := settings.poolOf(|view.nodes|);
    if size < settings.poolMinCount then settings.poolMinCount else size
  }

  function Pool(settings: Settings, view: View, others: seq<string>): seq<string>
    requires PoolSize(settings, view) >= 0
  {
    others[..if PoolSize(settings, view) > |others| then |others| else PoolSize(settings, view)]
  }

  function AdditionalCount(settings: Settings, found: nat, others: seq<string>): int {
    var count := settings.nonEmptyCandidates - found;
    if count > |others| then |others| else count
  }

  /** The drains of the current candidates were all simulated, and after that those of a pool of others, if wanted. */
  ghost predicate SimulatedInTwoPhases(view: View, settings: Settings, unneeded: map<string, int>, hints: Hints,
                                       nonEmpty: seq<string>, timestamp: int, first: Simulation, firstOps: seq<Op>,
                                       second: Simulation, secondOps: seq<Op>)
    requires PoolSize(settings, view) >= 0
  {
    var current := CurrentCandidates(settings, unneeded, nonEmpty);
    var others := OtherCandidates(settings, unneeded, nonEmpty);
    var count := AdditionalCount(settings, |first.found|, others);
    && Simulated(view, hints, current, |current|, timestamp, first, firstOps)
    && (if count > 0 then Simulated(view, hints, Pool(settings, view, others), count, timestamp, second, secondOps)
        else second == NO_SIMULATION && secondOps == [])
  }

  /** The outcome of an evaluation: what the simulations found, and the empty nodes. */
  ghost predicate Evaluated(view: View, settings: Settings, suitable: seq<string>, unneeded: map<string, int>,
                            hints: Hints, timestamp: int, first: Simulation, firstOps: seq<Op>, second: Simulation,
                            secondOps: seq<Op>, result: seq<string>)
    requires PoolSize(settings, view) >= 0
  {
    && SimulatedInTwoPhases(view, settings, unneeded, hints, NonEmptyNodes(view, suitable), timestamp, first, firstOps,
                            second, secondOps)
    && result == Names(first.found) + Names(second.found) + EmptyNodes(view, suitable)
  }

  /** The span for which a node has to be unneeded before it may go. */
  function Span(view: View, settings: Settings, n: string): int {
    if view.ready(n) then settings.unneededTime else settings.unreadyTime
  }

  /** Node `n` may be removed now: long unneeded, and its group and the resource limits can spare it. */
  predicate Eligible(view: View, settings: Settings, unneeded: map<string, int>, limits: Limits, resources: set<string>,
                     groupSizes: map<string, int>, now: int, n: string)
  {
    && n in unneeded && !view.disabled(n)
    && unneeded[n] + Span(view, settings, n) < now
    && view.groups.groupOf(n).Some?
    && (var g := view.groups.groupOf(n).value;
        g in groupSizes && groupSizes[g] > view.groups.minSize(g))
    && view.delta(n, resources).Some?
    && WithinLimits(limits, view.delta(n, resources).value)
  }

  function EligibleIn(view: View, settings: Settings, unneeded: map<string, int>, limits: Limits,
                      resources: set<string>, groupSizes: map<string, int>, now: int): string -> bool
  {
    n => Eligible(view, settings, unneeded, limits, resources, groupSizes, now, n)
  }

  datatype Outcome =
    | ScaleDownError(attempted: seq<string>)
    | NoUnneeded
    | NodeDeleted(nodes: seq<string>)
    | NoNodeDeleted
    | NodeDeleteStarted(node: string, pods: seq<Pod>)

  datatype ScaleDownStatus = ScaleDownStatus(result: Outcome, nodeDeleteResults: map<string, DeleteResult>)

  /**
   * A node is drained only if the simulation found room for all its pods; none is, only if it found none
   * for any candidate.
   */
  ghost predicate DrainDecided(view: View, hints: Hints, candidates: seq<string>, result: Outcome) {
    match result
    case NoNodeDeleted => forall n :: n in candidates ==> Justified(view, hints, n, false)
    case NodeDeleteStarted(node, pods) =>
      node in candidates && Justified(view, hints, node, true) && pods == PodsOf(view.infos, view.podsToMove, node)
    case _ => false
  }

  lemma SimulationDecides(view: View, hints: Hints, candidates: seq<string>, timestamp: int, sim: Simulation,
                          ops: seq<Op>)
    requires Simulated(view, hints, candidates, 1, timestamp, sim, ops)
    ensures DrainDecided(view, hints, candidates, if sim.found == [] then NoNodeDeleted
                         else NodeDeleteStarted(sim.found[0].node, sim.found[0].podsToReschedule))
  {
    if sim.found == [] {
      forall n | n in candidates ensures Justified(view, hints, n, false) {
        EveryCandidateDecided(view, hints, candidates, 1, timestamp, sim, ops, n);
        SimulationJustifies(view, hints, candidates, 1, timestamp, sim, ops, n);
      }
    } else {
      var verdicts, placements :| SimulatedBy(view, hints, candidates, 1, timestamp, sim, ops, verdicts, placements);
      SplitNames(candidates, verdicts, view.infos, view.podsToMove, sim.found, sim.refused);
      assert Names(sim.found)[0] == sim.found[0].node;
      SimulationJustifies(view, hints, candidates, 1, timestamp, sim, ops, sim.found[0].node);
    }
  }

  /** What is decided about the candidates: empty ones first, else one to drain, if any. */
  ghost predicate Decided(view: View, settings: Settings, limits: Option<Limits>, hints: Hints, candidates: seq<string>,
                          deleted: bool, result: Outcome)
  {
    if limits.None? then result == ScaleDownError([])
    else if candidates == [] then result == NoUnneeded
    else
      var emptyNodes := Bulk(view.ProviderFor(limits.value.Keys), limits.value, Kept(candidates, view.empty),
                             settings.maxEmptyBulkDelete);
      if emptyNodes != [] then result == if deleted then NodeDeleted(emptyNodes) else ScaleDownError(emptyNodes)
      else DrainDecided(view, hints, candidates, result)
  }

  /** What the removal of a drained node does to the tracker. */
  function UnregisteredBy(result: Outcome): seq<Op> {
    match result
    case NodeDeleteStarted(node, _) => [Unregister(node)]
    case _ => []
  }

  function Unregistrations(nodes: seq<string>): seq<Op> {
    seq(|nodes|, i requires 0 <= i < |nodes| => Unregister(nodes[i]))
  }

  /**
   * What a scale-down does to the tracker: nothing without candidates, the removal of the empty nodes, or
   * the usages of a simulation and the removal of the node that it begins to drain.
   */
  ghost predicate TrackedBy(view: View, hints: Hints, candidates: seq<string>, timestamp: int, result: Outcome,
                            before: seq<Op>, after: seq<Op>)
  {
    match result
    case ScaleDownError(attempted) => after == before + Unregistrations(attempted)
    case NodeDeleted(nodes) => after == before + Unregistrations(nodes)
    case NoUnneeded => after == before
    case _ => exists sim, ops ::
      Simulated(view, hints, candidates, 1, timestamp, sim, ops) && after == before + ops + UnregisteredBy(result)
  }

  lemma TrackedGrows(view: View, hints: Hints, candidates: seq<string>, timestamp: int, result: Outcome,
                     before: seq<Op>, after: seq<Op>)
    requires TrackedBy(view, hints, candidates, timestamp, result, before, after)
    ensures before <= after
  {
  }

  /** The nodes whose removal was begun. */
  function Removed(result: Outcome): seq<string> {
    match result
    case ScaleDownError(attempted) => attempted
    case NodeDeleted(nodes) => nodes
    case NodeDeleteStarted(node, _) => [node]
    case _ => []
  }

  // ----- what evaluations and removals guarantee

  /** Node `n` is suitable, and empty within what its group can spare, or all its pods were placed elsewhere. */
  ghost predicate ShownUnneeded(view: View, suitable: seq<string>, hints: Hints, n: string) {
    n in suitable && (n in EmptyNodes(view, suitable) || Justified(view, hints, n, true))
  }

  /** Every node found unneeded is suitable, and either empty or shown to have room for all its pods elsewhere. */
  lemma UnneededAreJustified(view: View, settings: Settings, suitable: seq<string>, unneeded: map<string, int>,
                             hints: Hints, timestamp: int, first: Simulation, firstOps: seq<Op>, second: Simulation,
                             secondOps: seq<Op>, result: seq<string>, n: string)
    requires PoolSize(settings, view) >= 0
    requires Evaluated(view, settings, suitable, unneeded, hints, timestamp, first, firstOps, second, secondOps, result)
             && n in result
    ensures ShownUnneeded(view, suitable, hints, n)
  {
    var nonEmpty := NonEmptyNodes(view, suitable);
    var current, others := CurrentCandidates(settings, unneeded, nonEmpty),
                           OtherCandidates(settings, unneeded, nonEmpty);
    KeptExactly(suitable, Not(In(EmptyNodes(view, suitable))), n);
    KeptExactly(nonEmpty, KeyOf(unneeded), n);
    KeptExactly(nonEmpty, Not(KeyOf(unneeded)), n);
    if n in EmptyNodes(view, suitable) {
      BulkAreOffered(view.ProviderFor({}), map[], Kept(suitable, view.empty), |suitable|, n);
      KeptExactly(suitable, view.empty, n);
    } else if n in Names(first.found) {
      SimulationJustifies(view, hints, current, |current|, timestamp, first, firstOps, n);
    } else {
      SimulationJustifies(view, hints, Pool(settings, view, others), AdditionalCount(settings, |first.found|, others),
                          timestamp, second, secondOps, n);
    }
  }

  /**
   * A node that was unneeded and is still suitable does not stop being unneeded without a reason:
   * the simulation of its drain was carried out and failed, and it will not be retried for a while.
   */
  lemma UnneededStaysOrIsRefused(view: View, settings: Settings, suitable: seq<string>, unneeded: map<string, int>,
                                 hints: Hints, timestamp: int, first: Simulation, firstOps: seq<Op>, second: Simulation,
                                 secondOps: seq<Op>, result: seq<string>, n: string)
    requires PoolSize(settings, view) >= 0
    requires Evaluated(view, settings, suitable, unneeded, hints, timestamp, first, firstOps, second, secondOps, result)
    ensures n in unneeded && n in suitable && n !in result ==> n in first.refused && Justified(view, hints, n, false)
  {
    var nonEmpty := NonEmptyNodes(view, suitable);
    var current := CurrentCandidates(settings, unneeded, nonEmpty);
    KeptExactly(suitable, Not(In(EmptyNodes(view, suitable))), n);
    KeptExactly(nonEmpty, KeyOf(unneeded), n);
    EveryCandidateDecided(view, hints, current, |current|, timestamp, first, firstOps, n);
    SimulationJustifies(view, hints, current, |current|, timestamp, first, firstOps, n);
  }

  lemma BulkAreOffered(p: Provider, limits: Limits, nodes: seq<string>, max: nat, n: string)
    requires n in Bulk(p, limits, nodes, max)
    ensures n in nodes
  {
    ChosenAreOffered(p, limits, nodes);
    assert n in multiset(ConsiderAll(p, limits, nodes).chosen);
    assert n in multiset(nodes);
  }

  /** Only candidates are removed, and only such as are empty or have room for their pods elsewhere. */
  lemma RemovedAreCandidates(view: View, settings: Settings, limits: Option<Limits>, hints: Hints,
                             candidates: seq<string>, deleted: bool, result: Outcome, n: string)
    requires Decided(view, settings, limits, hints, candidates, deleted, result)
    requires n in Removed(result)
    ensures n in candidates
    ensures if result.NodeDeleteStarted? then Justified(view, hints, n, true) else view.empty(n)
  {
    if !result.NodeDeleteStarted? {
      BulkAreOffered(view.ProviderFor(limits.value.Keys), limits.value, Kept(candidates, view.empty),
                     settings.maxEmptyBulkDelete, n);
      KeptExactly(candidates, view.empty, n);
    }
  }

  class ScaleDown {
    const settings: Settings
    var unneededNodes: map<string, int>
    var unneededNodesList: seq<string>
    var unremovableNodes: map<string, int>
    var podLocationHints: Hints
    const usageTracker: UsageTracker
    const nodeDeleteStatus: NodeDeleteStatus
    ghost var history: seq<Event>
    ghost var trackerOps: seq<Op>

    ghost predicate Valid()
      reads this`unneededNodes, this`history, this`trackerOps, usageTracker, usageTracker.Repr
    {
      && usageTracker.Valid() && this !in usageTracker.Repr && nodeDeleteStatus !in usageTracker.Repr
      && IsRun(usageTracker.contents, trackerOps)
      && Remembers(unneededNodes, history)
    }

    constructor (settings: Settings)
      ensures Valid() && fresh(usageTracker.Repr) && fresh(nodeDeleteStatus) && this.settings == settings
      ensures history == [] && trackerOps == [] && unneededNodes == map[] && unremovableNodes == map[]
      ensures !nodeDeleteStatus.deleteInProgress && nodeDeleteStatus.nodeDeleteResults == map[]
    {
      this.settings := settings;
      unneededNodes, unneededNodesList, unremovableNodes, podLocationHints := map[], [], map[], map[];
      history, trackerOps := [], [];
      nodeDeleteStatus := new NodeDeleteStatus();
      usageTracker := new UsageTracker();
    }

    /** Forgets usages that are older than the time a node has to be unneeded. */
    method CleanUp(timestamp: int)
      requires Valid()
      modifies usageTracker.Repr, this`trackerOps
      ensures Valid() && usageTracker.Repr == old(usageTracker.Repr)
      ensures trackerOps == old(trackerOps) + [Op.CleanUp(timestamp - settings.unneededTime)]
    {
      var cutoff := timestamp - settings.unneededTime;
      ghost var u := usageTracker.contents;
      usageTracker.CleanUp(cutoff);
      assert usageTracker.contents == AfterCleanUp(u, cutoff);
      CleanUpIsAStep(u, trackerOps, cutoff);
      trackerOps := trackerOps + [Op.CleanUp(cutoff)];
    }

    method CleanUpUnneededNodes()
      requires Valid()
      modifies this`unneededNodes, this`unneededNodesList, this`history
      ensures Valid() && unneededNodes == map[] && unneededNodesList == []
      ensures history == old(history) + [RESET]
    {
      unneededNodesList := [];
      unneededNodes := map[];
      AfterSnoc(history, RESET);
      history := history + [RESET];
    }

    // ----- the evaluation

    /** Drops the entries of nodes that are no longer there. */
    method UpdateUnremovableNodes(nodes: seq<string>)
      modifies this`unremovableNodes
      ensures unremovableNodes == StillListed(old(unremovableNodes), nodes)
    {
      var nodesToDelete := unremovableNodes.Keys;
      for k := 0 to |nodes|
        invariant forall n :: n in nodesToDelete <==> n in unremovableNodes && n !in nodes[..k]
      {
        nodesToDelete := nodesToDelete - {nodes[k]};
      }
      assert nodes[..|nodes|] == nodes;
      unremovableNodes := unremovableNodes - nodesToDelete;
    }

    /** The nodes that were not refused recently; old refusals are deleted on the way. */
    method FilterRefused(nodesToCheck: seq<string>, timestamp: int) returns (filtered: seq<string>)
      modifies this`unremovableNodes
      ensures filtered == Kept(nodesToCheck, Not(RefusedUntil(old(unremovableNodes), timestamp)))
      ensures forall n :: n in unremovableNodes <==>
                n in old(unremovableNodes) && (n in nodesToCheck ==> old(unremovableNodes)[n] > timestamp)
      ensures forall n :: n in unremovableNodes ==> unremovableNodes[n] == old(unremovableNodes)[n]
    {
      ghost var before := unremovableNodes;
      filtered := [];
      for k := 0 to |nodesToCheck|
        invariant filtered == Kept(nodesToCheck[..k], Not(RefusedUntil(before, timestamp)))
        invariant forall n :: n in unremovableNodes <==>
                  n in before && (n in nodesToCheck[..k] ==> before[n] > timestamp)
        invariant forall n :: n in unremovableNodes ==> unremovableNodes[n] == before[n]
      {
        var node := nodesToCheck[k];
        KeptSnoc(nodesToCheck, k, Not(RefusedUntil(before, timestamp)));
        assert nodesToCheck[..k + 1] == nodesToCheck[..k] + [node];
        if node in unremovableNodes && unremovableNodes[node] > timestamp {
          continue;
        }
        unremovableNodes := unremovableNodes - {node};
        filtered := filtered + [node];
      }
      assert nodesToCheck[..|nodesToCheck|] == nodesToCheck;
    }

    method FilterLittleUsed(view: View, nodes: seq<string>) returns (littleUsed: seq<string>)
      ensures littleUsed == Kept(nodes, LittleUsed(view))
    {
      littleUsed := [];
      for k := 0 to |nodes|
        invariant littleUsed == Kept(nodes[..k], LittleUsed(view))
      {
        var node := nodes[k];
        KeptSnoc(nodes, k, LittleUsed(view));
        if view.beingDeleted(node) || view.disabled(node) || node !in view.infos || view.busy(view.infos[node]) {
          continue;
        }
        littleUsed := littleUsed + [node];
      }
      assert nodes[..|nodes|] == nodes;
    }

    /** Splits nodes into those that were unneeded before and the others. */
    method ChooseCandidates(nodes: seq<string>) returns (current: seq<string>, others: seq<string>)
      ensures current == CurrentCandidates(settings, unneededNodes, nodes)
      ensures others == OtherCandidates(settings, unneededNodes, nodes)
    {
      if settings.nonEmptyCandidates <= 0 {
        return nodes, [];
      }
      current, others := [], [];
      for k := 0 to |nodes|
        invariant current == Kept(nodes[..k], KeyOf(unneededNodes))
        invariant others == Kept(nodes[..k], Not(KeyOf(unneededNodes)))
      {
        KeptSnoc(nodes, k, KeyOf(unneededNodes));
        KeptSnoc(nodes, k, Not(KeyOf(unneededNodes)));
        if nodes[k] in unneededNodes {
          current := current + [nodes[k]];
        } else {
          others := others + [nodes[k]];
        }
      }
      assert nodes[..|nodes|] == nodes;
    }

    /** Simulates the drains of `candidates`, and keeps book of what the simulation did to the tracker. */
    method Simulate(view: View, candidates: seq<string>, maxCount: int, timestamp: int)
      returns (sim: Simulation, ghost ops: seq<Op>)
      requires Valid()
      modifies usageTracker.Repr, this`trackerOps
      ensures Valid() && fresh(usageTracker.Repr - old(usageTracker.Repr))
      ensures Simulated(view, podLocationHints, candidates, maxCount, timestamp, sim, ops)
      ensures trackerOps == old(trackerOps) + ops
    {
      ghost var u := usageTracker.contents;
      ghost var verdicts, placements;
      var found, refused, hints;
      found, refused, hints, verdicts, placements := FindNodesToRemove(
        candidates, view.nodes, view.infos, view.fits, view.podsToMove, maxCount, podLocationHints, usageTracker,
          timestamp);
      sim := Simulation(found, refused, hints);
      ops := AllOps(candidates, placements, timestamp);
      SimulationIsARun(u, trackerOps, candidates, placements, timestamp);
      trackerOps := trackerOps + ops;
      assert SimulatedBy(view, podLocationHints, candidates, maxCount, timestamp, sim, ops, verdicts, placements);
    }

    /** Makes `removable` the unneeded nodes, keeping the times of those that were unneeded before. */
    method RecordUnneeded(removable: seq<string>, timestamp: int)
      requires Valid()
      modifies this`unneededNodes, this`unneededNodesList, this`history
      ensures Valid() && unneededNodesList == removable
      ensures forall n :: n in unneededNodes <==> n in removable
      ensures history == old(history) + [Evaluation(timestamp, removable)]
    {
      var result: map<string, int> := map[];
      for k := 0 to |removable|
        invariant forall n :: n in result <==> n in removable[..k]
        invariant forall n :: n in result ==> result[n] == if n in unneededNodes then unneededNodes[n] else timestamp
      {
        var name := removable[k];
        assert removable[..k + 1] == removable[..k] + [name];
        if name !in unneededNodes {
          result := result[name := timestamp];
        } else {
          result := result[name := unneededNodes[name]];
        }
      }
      assert removable[..|removable|] == removable;
      EvaluationRemembered(unneededNodes, result, history, timestamp, removable);
      unneededNodesList := removable;
      unneededNodes := result;
      history := history + [Evaluation(timestamp, removable)];
    }

    method RecordRefused(refused: seq<string>, until: int)
      modifies this`unremovableNodes
      ensures RefusalsAdded(old(unremovableNodes), refused, until, unremovableNodes)
    {
      ghost var before := unremovableNodes;
      for k := 0 to |refused|
        invariant RefusalsAdded(before, refused[..k], until, unremovableNodes)
      {
        assert refused[..k + 1] == refused[..k] + [refused[k]];
        unremovableNodes := unremovableNodes[refused[k] := until];
      }
      assert refused[..|refused|] == refused;
    }

    method FilterNonEmpty(nodes: seq<string>, emptyNodes: seq<string>) returns (nonEmpty: seq<string>)
      ensures nonEmpty == Kept(nodes, Not(In(emptyNodes)))
    {
      nonEmpty := [];
      for k := 0 to |nodes|
        invariant nonEmpty == Kept(nodes[..k], Not(In(emptyNodes)))
      {
        KeptSnoc(nodes, k, Not(In(emptyNodes)));
        if nodes[k] !in emptyNodes {
          nonEmpty := nonEmpty + [nodes[k]];
        }
      }
      assert nodes[..|nodes|] == nodes;
    }

    /** The nodes worth a look now: the empty ones that can be spared, and the others. */
    method FindSuitable(view: View, nodesToCheck: seq<string>, timestamp: int)
      returns (emptyNodes: seq<string>, nonEmpty: seq<string>)
      modifies this`unremovableNodes
      ensures emptyNodes == EmptyNodes(view, SuitableNodes(view, old(unremovableNodes), timestamp, nodesToCheck))
      ensures nonEmpty == NonEmptyNodes(view, SuitableNodes(view, old(unremovableNodes), timestamp, nodesToCheck))
      ensures unremovableNodes == StillRefused(view, nodesToCheck, timestamp, old(unremovableNodes))
    {
      UpdateUnremovableNodes(view.nodes);
      KeptSame(nodesToCheck, Not(RefusedUntil(unremovableNodes, timestamp)),
               Not(RecentlyRefused(view, old(unremovableNodes), timestamp)));
      var filtered := FilterRefused(nodesToCheck, timestamp);
      var suitable := FilterLittleUsed(view, filtered);
      emptyNodes := GetEmptyNodes(Kept(suitable, view.empty), |suitable|, map[], view.ProviderFor({}));
      nonEmpty := FilterNonEmpty(suitable, emptyNodes);
    }

    /** Looks for at most `count` more removable nodes among others than the current candidates. */
    method SimulateMore(view: View, others: seq<string>, count: int, timestamp: int)
      returns (sim: Simulation, ghost ops: seq<Op>)
      requires Valid() && PoolSize(settings, view) >= 0
      modifies usageTracker.Repr, this`trackerOps
      ensures Valid() && fresh(usageTracker.Repr - old(usageTracker.Repr))
      ensures if count > 0
              then Simulated(view, podLocationHints, Pool(settings, view, others), count, timestamp, sim, ops)
              else sim == NO_SIMULATION && ops == []
      ensures trackerOps == old(trackerOps) + ops
    {
      sim, ops := NO_SIMULATION, [];
      if count > 0 {
        sim, ops := Simulate(view, Pool(settings, view, others), count, timestamp);
      }
    }

    /** Simulates the drains of the nodes unneeded before, and of a limited number of others. */
    method SimulateCandidates(view: View, nonEmpty: seq<string>, timestamp: int)
      returns (first: Simulation, second: Simulation, ghost firstOps: seq<Op>, ghost secondOps: seq<Op>)
      requires Valid() && PoolSize(settings, view) >= 0
      modifies usageTracker.Repr, this`trackerOps
      ensures Valid() && fresh(usageTracker.Repr - old(usageTracker.Repr))
      ensures SimulatedInTwoPhases(view, settings, unneededNodes, podLocationHints, nonEmpty, timestamp, first,
                                   firstOps, second, secondOps)
      ensures trackerOps == old(trackerOps) + firstOps + secondOps
    {
      var current, others := ChooseCandidates(nonEmpty);
      first, firstOps := Simulate(view, current, |current|, timestamp);
      second, secondOps := SimulateMore(view, others, AdditionalCount(settings, |first.found|, others), timestamp);
    }

    /** Decides which nodes are removable now. */
    method Evaluate(view: View, nodesToCheck: seq<string>, timestamp: int)
      returns (removable: seq<string>, first: Simulation, second: Simulation, ghost firstOps: seq<Op>,
               ghost secondOps: seq<Op>, ghost stillRefused: map<string, int>)
      requires Valid() && PoolSize(settings, view) >= 0
      modifies usageTracker.Repr, this`trackerOps, this`unremovableNodes
      ensures Valid() && fresh(usageTracker.Repr - old(usageTracker.Repr))
      ensures Evaluated(view, settings, SuitableNodes(view, old(unremovableNodes), timestamp, nodesToCheck),
                        unneededNodes, podLocationHints, timestamp, first, firstOps, second, secondOps, removable)
      ensures unremovableNodes == stillRefused == StillRefused(view, nodesToCheck, timestamp, old(unremovableNodes))
      ensures trackerOps == old(trackerOps) + firstOps + secondOps
    {
      var emptyNodes, nonEmpty := FindSuitable(view, nodesToCheck, timestamp);
      stillRefused := unremovableNodes;
      first, second, firstOps, secondOps := SimulateCandidates(view, nonEmpty, timestamp);
      removable := Names(first.found) + Names(second.found) + emptyNodes;
    }

    /** Notes the result of an evaluation. */
    method Record(removable: seq<string>, refused: seq<string>, until: int, hints: Hints, timestamp: int)
      requires Valid()
      modifies this`unneededNodes, this`unneededNodesList, this`history, this`unremovableNodes, this`podLocationHints
      ensures Valid()
      ensures unneededNodesList == removable && podLocationHints == hints
      ensures forall n :: n in unneededNodes <==> n in removable
      ensures history == old(history) + [Evaluation(timestamp, removable)]
      ensures RefusalsAdded(old(unremovableNodes), refused, until, unremovableNodes)
    {
      RecordUnneeded(removable, timestamp);
      RecordRefused(refused, until);
      podLocationHints := hints;
    }

    /**
     * The evaluation: which nodes could go now. It simulates the drain of every little used node
     * that was unneeded before, and of some others; empty nodes need no simulation.
     */
    method UpdateUnneededNodes(view: View, nodesToCheck: seq<string>, timestamp: int)
      returns (first: Simulation, second: Simulation, until: int, ghost firstOps: seq<Op>, ghost secondOps: seq<Op>,
               ghost stillRefused: map<string, int>)
      requires Valid() && PoolSize(settings, view) >= 0
      modifies usageTracker.Repr, this`unneededNodes, this`unneededNodesList, this`history, this`unremovableNodes,
               this`podLocationHints
      modifies this`trackerOps
      ensures Valid() && fresh(usageTracker.Repr - old(usageTracker.Repr))
      ensures Evaluated(view, settings, SuitableNodes(view, old(unremovableNodes), timestamp, nodesToCheck),
                        old(unneededNodes), old(podLocationHints), timestamp, first, firstOps, second, secondOps,
                        unneededNodesList)
      ensures forall n :: n in unneededNodes <==> n in unneededNodesList
      ensures history == old(history) + [Evaluation(timestamp, unneededNodesList)]
      ensures trackerOps == old(trackerOps) + firstOps + secondOps
      ensures podLocationHints == first.hints + second.hints
      ensures stillRefused == StillRefused(view, nodesToCheck, timestamp, old(unremovableNodes))
      ensures until == timestamp + settings.recheckTimeout
      ensures RefusalsAdded(stillRefused, first.refused + second.refused, until, unremovableNodes)
    {
      var removable;
      removable, first, second, firstOps, secondOps, stillRefused := Evaluate(view, nodesToCheck, timestamp);
      until := timestamp + settings.recheckTimeout;
      Record(removable, first.refused + second.refused, until, first.hints + second.hints, timestamp);
    }

    // ----- the removal

    /** The nodes that may be removed now. */
    method PickCandidates(view: View, limits: Limits, resources: set<string>, groupSizes: map<string, int>,
                          currentTime: int)
      returns (candidates: seq<string>)
      requires Valid()
      ensures candidates ==
              Kept(view.nodes, EligibleIn(view, settings, unneededNodes, limits, resources, groupSizes, currentTime))
      ensures forall n :: n in candidates ==> LongUnneeded(history, n, Span(view, settings, n), currentTime)
    {
      var eligible := EligibleIn(view, settings, unneededNodes, limits, resources, groupSizes, currentTime);
      candidates := [];
      for k := 0 to |view.nodes|
        invariant candidates == Kept(view.nodes[..k], eligible)
      {
        KeptSnoc(view.nodes, k, eligible);
        var isCandidate := CheckNode(view, limits, resources, groupSizes, currentTime, view.nodes[k]);
        if isCandidate {
          candidates := candidates + [view.nodes[k]];
        }
      }
      assert view.nodes[..|view.nodes|] == view.nodes;
      forall n | n in candidates ensures LongUnneeded(history, n, Span(view, settings, n), currentTime) {
        KeptExactly(view.nodes, eligible, n);
        OldMeansLong(unneededNodes, history, n, Span(view, settings, n), currentTime);
      }
    }

    method CheckNode(view: View, limits: Limits, resources: set<string>, groupSizes: map<string, int>, currentTime: int,
                     node: string)
      returns (isCandidate: bool)
      ensures isCandidate == Eligible(view, settings, unneededNodes, limits, resources, groupSizes, currentTime, node)
    {
      if node !in unneededNodes || view.disabled(node) {
        return false;
      }
      var val := unneededNodes[node];
      var ready := view.ready(node);
      if ready && !(val + settings.unneededTime < currentTime) {
        return false;
      }
      if !ready && !(val + settings.unreadyTime < currentTime) {
        return false;
      }
      var nodeGroup := view.groups.groupOf(node);
      if nodeGroup.None? || nodeGroup.value !in groupSizes
        || groupSizes[nodeGroup.value] <= view.groups.minSize(nodeGroup.value) {
        return false;
      }
      var delta := view.delta(node, resources);
      if delta.None? {
        return false;
      }
      var exceeded := CheckDeltaWithinLimits(limits, delta.value);
      assert exceeded == {} <==> WithinLimits(limits, delta.value);
      return exceeded == {};
    }

    /** Forgets `node`, and every unneeded node whose simulation relied on a target that its own relied on. */
    method RemoveFromTracker(node: string)
      requires Valid()
      modifies usageTracker.Repr, this`unneededNodes, this`history, this`trackerOps
      ensures Valid() && usageTracker.Repr == old(usageTracker.Repr)
      ensures trackerOps == old(trackerOps) + [Unregister(node)]
      ensures unneededNodes ==
              old(unneededNodes) - ForgottenWith(old(usageTracker.contents), node, old(unneededNodes).Keys)
      ensures NoneShares(old(trackerOps), node, unneededNodes)
      ensures history ==
              old(history)
                + [FirstSeen.Forget(ForgottenWith(old(usageTracker.contents), node, old(unneededNodes).Keys))]
    {
      ghost var u, ops, before, events := usageTracker.contents, trackerOps, unneededNodes, history;
      ghost var forgotten := ForgottenWith(u, node, before.Keys);
      var left := RemoveNodeFromTracker(usageTracker, node, unneededNodes);
      unneededNodes := left;
      trackerOps := ops + [Unregister(node)];
      history := events + [FirstSeen.Forget(forgotten)];
      RemovalRecorded(u, ops, node, before, events, left);
    }

    /** Forgets empty nodes that are about to be deleted. */
    method RemoveAllFromTracker(nodes: seq<string>)
      requires Valid()
      modifies usageTracker.Repr, this`unneededNodes, this`history, this`trackerOps
      ensures Valid() && usageTracker.Repr == old(usageTracker.Repr)
      ensures forall n :: n in unneededNodes ==> n in old(unneededNodes) && n !in nodes
      ensures OnlyForgets(old(history), history)
      ensures trackerOps == old(trackerOps) + Unregistrations(nodes)
    {
      for k := 0 to |nodes|
        invariant Valid() && usageTracker.Repr == old(usageTracker.Repr)
        invariant forall n :: n in unneededNodes ==> n in old(unneededNodes) && n !in nodes[..k]
        invariant OnlyForgets(old(history), history)
        invariant trackerOps == old(trackerOps) + Unregistrations(nodes[..k])
      {
        RemoveFromTracker(nodes[k]);
        assert nodes[..k + 1] == nodes[..k] + [nodes[k]];
      }
      assert nodes[..|nodes|] == nodes;
    }

    /** A node that is to be drained is forgotten, and marked as being deleted. */
    method BeginDrain(node: string)
      requires Valid()
      modifies usageTracker.Repr, this`unneededNodes, this`history, this`trackerOps, nodeDeleteStatus`deleteInProgress
      ensures Valid() && usageTracker.Repr == old(usageTracker.Repr)
      ensures OnlyForgets(old(history), history) && trackerOps == old(trackerOps) + [Unregister(node)]
      ensures nodeDeleteStatus.deleteInProgress && LastForgotten(node)
    {
      RemoveFromTracker(node);
      assert trackerOps[..|trackerOps| - 1] == old(trackerOps);
      nodeDeleteStatus.SetDeleteInProgress(true);
    }

    /** Looks for one candidate whose pods all fit elsewhere, and starts draining it. */
    method StartDrain(view: View, candidates: seq<string>, timestamp: int) returns (result: Outcome)
      requires Valid() && candidates != []
      modifies usageTracker.Repr, this`unneededNodes, this`history, this`trackerOps, nodeDeleteStatus`deleteInProgress
      ensures Valid() && fresh(usageTracker.Repr - old(usageTracker.Repr))
      ensures DrainDecided(view, podLocationHints, candidates, result) && OnlyForgets(old(history), history)
      ensures TrackedBy(view, podLocationHints, candidates, timestamp, result, old(trackerOps), trackerOps)
      ensures result.NodeDeleteStarted? ==> nodeDeleteStatus.deleteInProgress && LastForgotten(result.node)
      ensures result.NoNodeDeleted? ==> nodeDeleteStatus.deleteInProgress == old(nodeDeleteStatus.deleteInProgress)
    {
      var sim;
      ghost var ops;
      sim, ops := Simulate(view, candidates, 1, timestamp);
      SimulationDecides(view, podLocationHints, candidates, timestamp, sim, ops);
      if sim.found == [] {
        return NoNodeDeleted;
      }
      var toRemove := sim.found[0];
      BeginDrain(toRemove.node);
      result := NodeDeleteStarted(toRemove.node, toRemove.podsToReschedule);
    }

    /**
     * The last thing done to the tracker was removing `node`, and no one who shared a live target with it
     * is still unneeded.
     */
    ghost predicate LastForgotten(node: string)
      reads this`trackerOps, this`unneededNodes
    {
      var k := |trackerOps| - 1;
      k >= 0 && trackerOps[k] == Unregister(node) && node !in unneededNodes
        && NoneShares(trackerOps[..k], node, unneededNodes)
    }

    /**
     * Removes empty nodes in bulk, or else starts to drain one node, among the nodes that have been
     * unneeded for long enough. `deleted` says whether the provider deleted the empty nodes.
     */
    method TryToScaleDown(view: View, limits: Option<Limits>, resources: set<string>, groupSizes: map<string, int>,
                          currentTime: int, wallClock: int, deleted: bool)
      returns (status: ScaleDownStatus, ghost candidates: seq<string>)
      requires Valid()
      modifies usageTracker.Repr, this`unneededNodes, this`history, this`trackerOps, nodeDeleteStatus
      ensures Valid() && fresh(usageTracker.Repr - old(usageTracker.Repr))
      ensures status.nodeDeleteResults == old(nodeDeleteStatus.nodeDeleteResults)
              && nodeDeleteStatus.nodeDeleteResults == map[]
      ensures candidates == if limits.None? then []
              else Kept(view.nodes,
                        EligibleIn(view, settings, old(unneededNodes), limits.value, resources, groupSizes,
                                   currentTime))
      ensures forall n :: n in candidates ==> LongUnneeded(old(history), n, Span(view, settings, n), currentTime)
      ensures Decided(view, settings, limits, podLocationHints, candidates, deleted, status.result)
      ensures OnlyForgets(old(history), history)
      ensures TrackedBy(view, podLocationHints, candidates, wallClock, status.result, old(trackerOps), trackerOps)
      ensures nodeDeleteStatus.deleteInProgress ==
              (old(nodeDeleteStatus.deleteInProgress) || status.result.NodeDeleteStarted?)
      ensures status.result.NodeDeleteStarted? ==> LastForgotten(status.result.node)
      ensures forall n :: n in Removed(status.result) ==> n !in unneededNodes
    {
      var results := nodeDeleteStatus.DrainNodeDeleteResults();
      candidates := [];
      if limits.None? {
        return ScaleDownStatus(ScaleDownError([]), results), candidates;
      }
      var picked := PickCandidates(view, limits.value, resources, groupSizes, currentTime);
      candidates := picked;
      if picked == [] {
        return ScaleDownStatus(NoUnneeded, results), candidates;
      }
      var emptyNodes := GetEmptyNodes(Kept(picked, view.empty), settings.maxEmptyBulkDelete, limits.value,
                                      view.ProviderFor(limits.value.Keys));
      if emptyNodes != [] {
        RemoveAllFromTracker(emptyNodes);
        return ScaleDownStatus(if deleted then NodeDeleted(emptyNodes) else ScaleDownError(emptyNodes), results),
          candidates;
      }
      var result := StartDrain(view, picked, wallClock);
      status := ScaleDownStatus(result, results);
    }
  }
}
