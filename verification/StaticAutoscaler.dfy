/** One iteration of the main loop (core/static_autoscaler.go). */
module StaticAutoscaler {
  import opened Interleaving
  import opened LoopProtocol
  import opened NodeDeletion
  import opened Wrappers
  import Drain
  import Limits = ScaleDownLimits
  import SD = ScaleDown
  import TrackerRuns

  datatype Options = Options(scaleDownEnabled: bool, delays: Delays, maxNodesTotal: int)

  type Results = map<string, DeleteResult>

  /** How far the iteration gets before it looks at pods; anything but `Usable` ends it. */
  datatype Survey =
    | NodesNotListed | EmptyCluster | RefreshFailed | UpdateFailed | UnregisteredRemoved(ok: bool)
    | Unhealthy | SizesFixed(ok: bool) | PodsNotListed | Usable

  datatype ScaleUpResult = ScaleUpError | ScaleUpSuccessful | ScaleUpOther

  /** What the pods ask for: `toHelp` of them fit nowhere and are old enough to be looked at. */
  datatype Demand = Demand(schedulablePresent: bool, toHelp: nat, readyNodes: nat, allNew: bool,
                           daemonSetsListed: bool, scaleUp: ScaleUpResult)

  /** What a scale-down is based on: the views for the evaluation and for the removal, and the provider's data. */
  datatype Basis = Basis(pdbsListed: bool, evaluation: SD.View, nodesToCheck: seq<string>, removal: SD.View,
                         limits: Option<Limits.Limits>, resources: set<string>, groupSizes: map<string, int>,
                         wallClock: int, deleted: bool)

  /** What an iteration did; it is held back if it came to the gate of the scale-down and found it closed. */
  datatype Deed = Neither | HeldBack | DidScaleUp | DidTry(status: SD.ScaleDownStatus)

  /** The unneeded nodes are forgotten when the state of the cluster is unknown or bad. */
  predicate Forgets(survey: Survey) {
    survey in {EmptyCluster, UpdateFailed, Unhealthy}
  }

  /** A scale-up is tried: there are pods to help, room for nodes, and the pods are not all new. */
  predicate NeedsScaleUp(options: Options, demand: Demand) {
    && demand.toHelp > 0
    && !(options.maxNodesTotal > 0 && demand.readyNodes >= options.maxNodesTotal)
    && !demand.allNew
  }

  predicate ScalesUp(options: Options, demand: Demand) {
    NeedsScaleUp(options, demand) && demand.daemonSetsListed && demand.scaleUp == ScaleUpSuccessful
  }

  /** The iteration comes to the scale-down part. */
  predicate ReachesScaleDown(options: Options, survey: Survey, demand: Demand) {
    && survey == Usable
    && (NeedsScaleUp(options, demand) ==> demand.daemonSetsListed && demand.scaleUp == ScaleUpOther)
    && options.scaleDownEnabled
  }

  /** Pods that fit on existing nodes, or are all too new to be helped, forbid scaling down. */
  predicate ScaleDownForbidden(options: Options, demand: Demand) {
    || demand.schedulablePresent
    || (demand.toHelp > 0 && !(options.maxNodesTotal > 0 && demand.readyNodes >= options.maxNodesTotal)
        && demand.allNew)
  }

  /** The iteration comes to the gate: nothing but a delay or a drain can keep it from trying to scale down. */
  predicate ComesToGate(options: Options, survey: Survey, demand: Demand, pdbsListed: bool) {
    ReachesScaleDown(options, survey, demand) && pdbsListed && !ScaleDownForbidden(options, demand)
  }

  function OutcomeOf(result: SD.Outcome): Outcome {
    match result
    case NodeDeleted(_) => NodesDeleted
    case ScaleDownError(_) => Error
    case NodeDeleteStarted(node, _) => StartDrain(node)
    case _ => Nothing
  }

  function TimesAfter(t: Times, now: int, deed: Deed): Times {
    match deed
    case Neither | HeldBack => t
    case DidScaleUp => t.(scaleUp := now)
    case DidTry(ScaleDownStatus(NodeDeleted(_), _)) => t.(delete := now)
    case DidTry(ScaleDownStatus(ScaleDownError(_), _)) => t.(fail := now)
    case DidTry(_) => t
  }

  /** The iteration returns no error. */
  predicate NoError(options: Options, survey: Survey, demand: Demand, pdbsListed: bool, deed: Deed) {
    match survey
    case NodesNotListed | RefreshFailed | UpdateFailed | PodsNotListed => false
    case EmptyCluster | Unhealthy => true
    case UnregisteredRemoved(ok) => ok
    case SizesFixed(ok) => ok
    case Usable =>
      && (NeedsScaleUp(options, demand) ==> demand.daemonSetsListed && demand.scaleUp != ScaleUpError)
      && (ReachesScaleDown(options, survey, demand) ==>
          pdbsListed && !(deed.DidTry? && deed.status.result.ScaleDownError?))
  }

  /** A scale-down reports all results and keeps none; nothing else touches them. */
  ghost predicate Reported(deed: Deed, before: Results, after: Results) {
    if deed.DidTry? then deed.status.nodeDeleteResults == before && after == map[] else after == before
  }

  class StaticAutoscaler {
    const options: Options
    var lastScaleUpTime: int
    var lastScaleDownDeleteTime: int
    var lastScaleDownFailTime: int
    const scaleDown: SD.ScaleDown

    function LastTimes(): Times
      reads this
    {
      Times(lastScaleUpTime, lastScaleDownDeleteTime, lastScaleDownFailTime)
    }

    ghost predicate Valid()
      reads scaleDown, scaleDown.usageTracker, scaleDown.usageTracker.Repr
    {
      scaleDown.Valid() && this !in scaleDown.usageTracker.Repr
    }

    constructor (options: Options, settings: SD.Settings, now: int)
      ensures Valid() && this.options == options && LastTimes() == Times(now, now, now)
      ensures !scaleDown.nodeDeleteStatus.deleteInProgress && scaleDown.nodeDeleteStatus.nodeDeleteResults == map[]
      ensures scaleDown.history == [] && scaleDown.settings == settings
      ensures fresh(scaleDown) && fresh(scaleDown.usageTracker.Repr) && fresh(scaleDown.nodeDeleteStatus)
    {
      this.options := options;
      lastScaleUpTime, lastScaleDownDeleteTime, lastScaleDownFailTime := now, now, now;
      scaleDown := new SD.ScaleDown(settings);
    }

    /** The part of an iteration that decides whether a scale-up ends it. */
    method TryToScaleUp(demand: Demand, currentTime: int) returns (ok: bool, goesOn: bool, forbidden: bool)
      modifies this`lastScaleUpTime
      ensures goesOn <==> (NeedsScaleUp(options, demand) ==> demand.daemonSetsListed && demand.scaleUp == ScaleUpOther)
      ensures goesOn ==> forbidden == ScaleDownForbidden(options, demand)
      ensures lastScaleUpTime == if ScalesUp(options, demand) then currentTime else old(lastScaleUpTime)
      ensures ok <==> goesOn || ScalesUp(options, demand)
    {
      forbidden := false;
      if demand.schedulablePresent {
        forbidden := true;
      }
      if demand.toHelp == 0 {
      } else if options.maxNodesTotal > 0 && demand.readyNodes >= options.maxNodesTotal {
      } else if demand.allNew {
        forbidden := true;
      } else {
        if !demand.daemonSetsListed {
          return false, false, forbidden;
        }
        match demand.scaleUp
        case ScaleUpError =>
          return false, false, forbidden;
        case ScaleUpSuccessful =>
          lastScaleUpTime := currentTime;
          return true, false, forbidden;
        case ScaleUpOther =>
      }
      ok, goesOn := true, true;
    }

    /** What lies behind the gate. */
    method Attempt(basis: Basis, currentTime: int) returns (status: SD.ScaleDownStatus, ghost candidates: seq<string>)
      requires Valid()
      modifies this`lastScaleDownDeleteTime, this`lastScaleDownFailTime
      modifies scaleDown.usageTracker.Repr, scaleDown`unneededNodes, scaleDown`history, scaleDown`trackerOps,
               scaleDown.nodeDeleteStatus
      ensures Valid() && fresh(scaleDown.usageTracker.Repr - old(scaleDown.usageTracker.Repr))
      ensures LastTimes() == TimesAfter(old(LastTimes()), currentTime, DidTry(status))
      ensures scaleDown.nodeDeleteStatus.deleteInProgress ==
              (old(scaleDown.nodeDeleteStatus.deleteInProgress) || status.result.NodeDeleteStarted?)
      ensures Reported(DidTry(status), old(scaleDown.nodeDeleteStatus.nodeDeleteResults),
                       scaleDown.nodeDeleteStatus.nodeDeleteResults)
      ensures SD.OnlyForgets(old(scaleDown.history), scaleDown.history)
      ensures SD.TrackedBy(basis.removal, scaleDown.podLocationHints, candidates, basis.wallClock, status.result,
                           old(scaleDown.trackerOps), scaleDown.trackerOps)
      ensures forall n :: n in SD.Removed(status.result) ==> n !in scaleDown.unneededNodes
      ensures forall n :: n in SD.Removed(status.result) ==>
                SD.LongUnneeded(old(scaleDown.history), n, SD.Span(basis.removal, scaleDown.settings, n), currentTime)
    {
      ghost var hints := scaleDown.podLocationHints;
      status, candidates := scaleDown.TryToScaleDown(basis.removal, basis.limits, basis.resources, basis.groupSizes,
                                                     currentTime, basis.wallClock, basis.deleted);
      forall n | n in SD.Removed(status.result) ensures n in candidates {
        SD.RemovedAreCandidates(basis.removal, scaleDown.settings, basis.limits, hints, candidates, basis.deleted,
                                status.result, n);
      }
      if status.result.NodeDeleted? {
        lastScaleDownDeleteTime := currentTime;
      }
      if status.result.ScaleDownError? {
        lastScaleDownFailTime := currentTime;
      }
    }

    /** The gate. */
    method TryToScaleDown(forbidden: bool, basis: Basis, currentTime: int)
      returns (ok: bool, deed: Deed, ghost candidates: seq<string>)
      requires Valid()
      modifies this`lastScaleDownDeleteTime, this`lastScaleDownFailTime
      modifies scaleDown.usageTracker.Repr, scaleDown`unneededNodes, scaleDown`history, scaleDown`trackerOps,
               scaleDown.nodeDeleteStatus
      ensures Valid() && fresh(scaleDown.usageTracker.Repr - old(scaleDown.usageTracker.Repr))
      ensures deed.DidTry? || deed.HeldBack? <==> !forbidden
      ensures deed.DidTry? <==> !forbidden && CooldownOver(options.delays, old(LastTimes()), currentTime)
                                && !old(scaleDown.nodeDeleteStatus.deleteInProgress)
      ensures !deed.DidScaleUp? && LastTimes() == TimesAfter(old(LastTimes()), currentTime, deed)
      ensures ok <==> !(deed.DidTry? && deed.status.result.ScaleDownError?)
      ensures scaleDown.nodeDeleteStatus.deleteInProgress ==
              (old(scaleDown.nodeDeleteStatus.deleteInProgress)
               || (deed.DidTry? && deed.status.result.NodeDeleteStarted?))
      ensures deed.DidTry? ==> forall n :: n in SD.Removed(deed.status.result) ==>
                SD.LongUnneeded(old(scaleDown.history), n, SD.Span(basis.removal, scaleDown.settings, n), currentTime)
      ensures Reported(deed, old(scaleDown.nodeDeleteStatus.nodeDeleteResults),
                       scaleDown.nodeDeleteStatus.nodeDeleteResults)
      ensures SD.OnlyForgets(old(scaleDown.history), scaleDown.history)
      ensures if deed.DidTry?
              then SD.TrackedBy(basis.removal, scaleDown.podLocationHints, candidates, basis.wallClock,
                                deed.status.result, old(scaleDown.trackerOps), scaleDown.trackerOps)
              else scaleDown.trackerOps == old(scaleDown.trackerOps)
      ensures deed.DidTry? ==> forall n :: n in SD.Removed(deed.status.result) ==> n !in scaleDown.unneededNodes
      ensures !deed.DidTry? ==>
                scaleDown.unneededNodes == old(scaleDown.unneededNodes) && scaleDown.history == old(scaleDown.history)
    {
      var scaleDownInCooldown := forbidden
                                 || lastScaleUpTime + options.delays.afterAdd > currentTime
                                 || lastScaleDownFailTime + options.delays.afterFailure > currentTime
                                 || lastScaleDownDeleteTime + options.delays.afterDelete > currentTime;
      var inProgress := scaleDown.nodeDeleteStatus.IsDeleteInProgress();
      if scaleDownInCooldown || inProgress {
        return true, if forbidden then Neither else HeldBack, [];
      }
      var status;
      status, candidates := Attempt(basis, currentTime);
      ok, deed := !status.result.ScaleDownError?, DidTry(status);
    }

    /** The end of the iteration: unneeded nodes are evaluated in any case, and removed if nothing speaks against it. */
    method ScaleDownPart(forbidden: bool, basis: Basis, currentTime: int)
      returns (ok: bool, deed: Deed, ghost evaluated: seq<SD.Event>)
      requires Valid() && SD.PoolSize(scaleDown.settings, basis.evaluation) >= 0
      modifies this`lastScaleDownDeleteTime, this`lastScaleDownFailTime, scaleDown.usageTracker.Repr, scaleDown,
               scaleDown.nodeDeleteStatus
      ensures Valid() && fresh(scaleDown.usageTracker.Repr - old(scaleDown.usageTracker.Repr))
      ensures deed.DidTry? || deed.HeldBack? <==> basis.pdbsListed && !forbidden
      ensures deed.DidTry? <==>
              basis.pdbsListed && !forbidden && CooldownOver(options.delays, old(LastTimes()), currentTime)
                                && !old(scaleDown.nodeDeleteStatus.deleteInProgress)
      ensures !deed.DidScaleUp? && LastTimes() == TimesAfter(old(LastTimes()), currentTime, deed)
      ensures ok <==> basis.pdbsListed && !(deed.DidTry? && deed.status.result.ScaleDownError?)
      ensures scaleDown.nodeDeleteStatus.deleteInProgress ==
              (old(scaleDown.nodeDeleteStatus.deleteInProgress)
               || (deed.DidTry? && deed.status.result.NodeDeleteStarted?))
      ensures if basis.pdbsListed then EvaluatedAt(old(scaleDown.history), evaluated, currentTime)
              else evaluated == old(scaleDown.history)
      ensures basis.pdbsListed ==>
                EvaluationShows(basis.evaluation,
                                SD.SuitableNodes(basis.evaluation, old(scaleDown.unremovableNodes), currentTime,
                                                 basis.nodesToCheck), old(scaleDown.podLocationHints),
                                                 evaluated[|old(scaleDown.history)|])
      ensures Reported(deed, old(scaleDown.nodeDeleteStatus.nodeDeleteResults),
                       scaleDown.nodeDeleteStatus.nodeDeleteResults)
      ensures SD.OnlyForgets(evaluated, scaleDown.history) && old(scaleDown.trackerOps) <= scaleDown.trackerOps
      ensures deed.DidTry? ==> forall n :: n in SD.Removed(deed.status.result) ==> n !in scaleDown.unneededNodes
      ensures deed.DidTry? ==> forall n :: n in SD.Removed(deed.status.result) ==>
                SD.LongUnneeded(evaluated, n, SD.Span(basis.removal, scaleDown.settings, n), currentTime)
    {
      evaluated := scaleDown.history;
      if !basis.pdbsListed {
        return false, Neither, evaluated;
      }
      Reevaluate(basis, currentTime);
      evaluated := scaleDown.history;
      ghost var ops := scaleDown.trackerOps;
      ghost var candidates;
      ok, deed, candidates := TryToScaleDown(forbidden, basis, currentTime);
      if deed.DidTry? {
        SD.TrackedGrows(basis.removal, scaleDown.podLocationHints, candidates, basis.wallClock, deed.status.result, ops,
                        scaleDown.trackerOps);
      }
    }

    method Reevaluate(basis: Basis, currentTime: int)
      requires Valid() && SD.PoolSize(scaleDown.settings, basis.evaluation) >= 0
      modifies scaleDown.usageTracker.Repr, scaleDown
      ensures Valid() && fresh(scaleDown.usageTracker.Repr - old(scaleDown.usageTracker.Repr))
      ensures EvaluatedAt(old(scaleDown.history), scaleDown.history, currentTime)
      ensures EvaluationShows(basis.evaluation,
                              SD.SuitableNodes(basis.evaluation, old(scaleDown.unremovableNodes), currentTime,
                                               basis.nodesToCheck), old(scaleDown.podLocationHints),
                                               scaleDown.history[|old(scaleDown.history)|])
      ensures old(scaleDown.trackerOps) <= scaleDown.trackerOps
    {
      ghost var before, refused, unneeded, hints :=
        scaleDown.history, scaleDown.unremovableNodes, scaleDown.unneededNodes, scaleDown.podLocationHints;
      scaleDown.CleanUp(currentTime);
      var first, second, until;
      ghost var firstOps, secondOps, stillRefused;
      first, second, until, firstOps, secondOps, stillRefused :=
        scaleDown.UpdateUnneededNodes(basis.evaluation, basis.nodesToCheck, currentTime);
      EvaluationExtends(before, currentTime, scaleDown.unneededNodesList);
      EvaluationShown(basis.evaluation, scaleDown.settings,
                      SD.SuitableNodes(basis.evaluation, refused, currentTime, basis.nodesToCheck), unneeded, hints,
                      currentTime, first, firstOps, second, secondOps, scaleDown.unneededNodesList);
    }

    /** What ends an iteration before it looks at pods. */
    method EndEarly(survey: Survey) returns (ok: bool)
      requires Valid() && survey != Usable
      modifies scaleDown`unneededNodes, scaleDown`unneededNodesList, scaleDown`history
      ensures Valid()
      ensures ok <==> survey in {EmptyCluster, Unhealthy, UnregisteredRemoved(true), SizesFixed(true)}
      ensures if Forgets(survey)
              then scaleDown.history == old(scaleDown.history) + [SD.RESET] && scaleDown.unneededNodes == map[]
              else unchanged(scaleDown`history) && unchanged(scaleDown`unneededNodes)
    {
      match survey
      case EmptyCluster | UpdateFailed | Unhealthy =>
        scaleDown.CleanUpUnneededNodes();
        ok := survey != UpdateFailed;
      case UnregisteredRemoved(noError) =>
        ok := noError;
      case SizesFixed(noError) =>
        ok := noError;
      case _ =>
        ok := false;
    }

    /** One iteration. */
    method RunOnce(survey: Survey, demand: Demand, basis: Basis, currentTime: int)
      returns (ok: bool, deed: Deed, ghost evaluated: seq<SD.Event>)
      requires Valid() && SD.PoolSize(scaleDown.settings, basis.evaluation) >= 0
      modifies this, scaleDown.usageTracker.Repr, scaleDown, scaleDown.nodeDeleteStatus
      ensures Valid() && fresh(scaleDown.usageTracker.Repr - old(scaleDown.usageTracker.Repr))
      ensures ok <==> NoError(options, survey, demand, basis.pdbsListed, deed)
      ensures deed.DidScaleUp? <==> survey == Usable && ScalesUp(options, demand)
      ensures deed.DidTry? || deed.HeldBack? <==> ComesToGate(options, survey, demand, basis.pdbsListed)
      ensures deed.DidTry? <==> ComesToGate(options, survey, demand, basis.pdbsListed)
                                && CooldownOver(options.delays, old(LastTimes()), currentTime)
                                && !old(scaleDown.nodeDeleteStatus.deleteInProgress)
      ensures LastTimes() == TimesAfter(old(LastTimes()), currentTime, deed)
      ensures scaleDown.nodeDeleteStatus.deleteInProgress ==
              (old(scaleDown.nodeDeleteStatus.deleteInProgress)
               || (deed.DidTry? && deed.status.result.NodeDeleteStarted?))
      ensures if Forgets(survey)
              then evaluated == old(scaleDown.history) + [SD.RESET] && scaleDown.unneededNodes == map[]
              else if ReachesScaleDown(options, survey, demand) && basis.pdbsListed
                then EvaluatedAt(old(scaleDown.history), evaluated, currentTime)
              else evaluated == old(scaleDown.history)
      ensures ReachesScaleDown(options, survey, demand) && basis.pdbsListed ==>
                EvaluationShows(basis.evaluation,
                                SD.SuitableNodes(basis.evaluation, old(scaleDown.unremovableNodes), currentTime,
                                                 basis.nodesToCheck), old(scaleDown.podLocationHints),
                                                 evaluated[|old(scaleDown.history)|])
      ensures Reported(deed, old(scaleDown.nodeDeleteStatus.nodeDeleteResults),
                       scaleDown.nodeDeleteStatus.nodeDeleteResults)
      ensures SD.OnlyForgets(evaluated, scaleDown.history) && old(scaleDown.trackerOps) <= scaleDown.trackerOps
      ensures deed.DidTry? ==> forall n :: n in SD.Removed(deed.status.result) ==> n !in scaleDown.unneededNodes
      ensures deed.DidTry? ==> forall n :: n in SD.Removed(deed.status.result) ==>
                SD.LongUnneeded(evaluated, n, SD.Span(basis.removal, scaleDown.settings, n), currentTime)
    {
      evaluated := scaleDown.history;
      deed := Neither;
      if survey != Usable {
        ok := EndEarly(survey);
        evaluated := scaleDown.history;
        return;
      }
      var goesOn, forbidden;
      ok, goesOn, forbidden := TryToScaleUp(demand, currentTime);
      if ok && !goesOn {
        deed := DidScaleUp;
      } else if goesOn && options.scaleDownEnabled {
        ok, deed, evaluated := ScaleDownPart(forbidden, basis, currentTime);
      }
    }
  }

  /** The history was extended by an evaluation at that time. */
  ghost predicate EvaluatedAt(before: seq<SD.Event>, after: seq<SD.Event>, now: int) {
    && |after| == |before| + 1 && after[..|before|] == before
    && after[|before|].Observe? && after[|before|].time == now
  }

  /** Every node that an evaluation found unneeded was shown to be. */
  ghost predicate EvaluationShows(view: SD.View, suitable: seq<string>, hints: Drain.Hints, e: SD.Event) {
    e.Observe? && forall n :: n in e.seen ==> SD.ShownUnneeded(view, suitable, hints, n)
  }

  lemma EvaluationShown(view: SD.View, settings: SD.Settings, suitable: seq<string>, unneeded: map<string, int>,
                        hints: Drain.Hints, now: int, first: SD.Simulation, firstOps: seq<TrackerRuns.Op>,
                        second: SD.Simulation, secondOps: seq<TrackerRuns.Op>, result: seq<string>)
    requires SD.PoolSize(settings, view) >= 0
    requires SD.Evaluated(view, settings, suitable, unneeded, hints, now, first, firstOps, second, secondOps, result)
    ensures EvaluationShows(view, suitable, hints, SD.Evaluation(now, result))
  {
    forall n | n in result ensures SD.ShownUnneeded(view, suitable, hints, n) {
      SD.UnneededAreJustified(view, settings, suitable, unneeded, hints, now, first, firstOps, second, secondOps,
                              result, n);
    }
  }

  lemma EvaluationExtends(before: seq<SD.Event>, now: int, unneeded: seq<string>)
    ensures EvaluatedAt(before, before + [SD.Evaluation(now, unneeded)], now)
  {
  }

  // ----- iterations as runs of the protocol

  /** The steps of the protocol that make up an iteration with no drain in between. */
  function StepsOf(now: int, deed: Deed): seq<Step> {
    match deed
    case Neither => [Begin(now), Leave]
    case HeldBack => [Begin(now), Blocked]
    case DidScaleUp => [Begin(now), ScaleUpSucceeds]
    case DidTry(status) => [Begin(now), Admit, TakeResults, Conclude(OutcomeOf(status.result))]
  }

  /** What an iteration makes of a state of the protocol. */
  function StateAfter(s: State, now: int, deed: Deed): State {
    var begun := s.(now := now, iteration := s.iteration + 1, times := TimesAfter(s.times, now, deed));
    match deed
    case Neither | HeldBack => begun
    case DidScaleUp => begun.(trace := s.trace + [ScaledUp(begun.iteration, now)])
    case DidTry(status) =>
      var taken := begun.(results := map[], drains := HandOut(s.drains),
                          trace := s.trace
                            + [TriedScaleDown(begun.iteration, now),
                               ResultsHandedOut(set n | n in s.results :: s.results[n])]);
      match OutcomeOf(status.result)
      case NodesDeleted => taken.(trace := taken.trace + [Deleted(now)])
      case Error => taken.(trace := taken.trace + [Failed(now)])
      case Nothing => taken
      case StartDrain(node) =>
        taken.(inProgress := true, drains := taken.drains + [LoopProtocol.Drain(node, Draining)],
               trace := taken.trace + [DrainStarted(|s.drains|)])
  }

  /**
   * What `RunOnce` promises about an iteration makes it a run of the protocol: from a state of the
   * protocol with the same times and the same in-progress flag, its steps can be taken one after the
   * other, and they end with the times, the flag and the results that `RunOnce` leaves behind.
   */
  lemma IterationIsARun(d: Delays, s: State, now: int, deed: Deed)
    requires s.phase == Resting && s.now <= now && ResultsMatch(s)
    requires deed.DidTry? ==> CooldownOver(d, s.times, now) && !s.inProgress
    requires deed.HeldBack? ==> !(CooldownOver(d, s.times, now) && !s.inProgress)
    ensures Goes(d, s, StepsOf(now, deed), StateAfter(s, now, deed))
  {
    match deed
    case Neither => EarlyEndIsARun(d, s, now, Leave);
    case HeldBack => EarlyEndIsARun(d, s, now, Blocked);
    case DidScaleUp => EarlyEndIsARun(d, s, now, ScaleUpSucceeds);
    case DidTry(status) => TryIsARun(d, s, now, OutcomeOf(status.result));
  }
}
