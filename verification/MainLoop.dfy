/**
 * The main loop (main.go) and the goroutines of its drains: iterations one after the other, and
 * drains that end and record their results in between. Runs of the protocol in which drains do so inside
 * iterations are equivalent to such runs, with the same passages of the gate
 * (`Interleaving.RunsAreSerializable`): an iteration that comes to the gate passes it, or is blocked,
 * exactly as `RunOnce` does.
 */
module MainLoop {
  import opened Interleaving
  import opened LoopProtocol
  import opened NodeDeletion
  import opened StaticAutoscaler
  import opened Turns
  import opened Wrappers
  import Hinting = Drain
  import SD = ScaleDown

  /** The results that wait are those of the drains the protocol names. */
  ghost predicate SameResults(held: Results, waiting: map<string, nat>, outcomes: map<nat, DeleteResult>) {
    && held.Keys == waiting.Keys
    && forall n :: n in held ==> waiting[n] in outcomes && held[n] == outcomes[waiting[n]]
  }

  lemma RecordedSame(s: State, held: Results, outcomes: map<nat, DeleteResult>, id: nat, result: DeleteResult)
    requires ResultsMatch(s) && SameResults(held, s.results, outcomes)
    requires id < |s.drains| && s.drains[id].stage == Ended
    ensures SameResults(held[s.drains[id].node := result], s.results[s.drains[id].node := id], outcomes[id := result])
  {
    forall n | n in held ensures s.results[n] != id {
      assert s.drains[s.results[n]].stage == Recorded;
    }
  }

  lemma SerialIteration(steps: seq<Step>, now: int, deed: Deed)
    requires Serial(steps)
    ensures Serial(steps + StepsOf(now, deed))
  {
    assert (steps + StepsOf(now, deed))[..|steps|] == steps;
  }

  /** The next iteration continues the chronicle. */
  lemma ChronicleGoesOn(options: Options, settings: SD.Settings, turns: seq<Turn>, histories: seq<seq<SD.Event>>,
                        turn: Turn, after: seq<SD.Event>)
    requires Chronicle(options, settings, turns, histories)
    requires turn.EvaluatedRightly(options) && turn.Writes(settings, histories[|turns|], after)
    ensures Chronicle(options, settings, turns + [turn], histories + [after])
  {
    var turns', histories' := turns + [turn], histories + [after];
    forall i | 0 <= i < |turns'|
      ensures turns'[i].EvaluatedRightly(options) && turns'[i].Writes(settings, histories'[i], histories'[i + 1])
    {
      if i < |turns| {
        assert turns[i].EvaluatedRightly(options) && turns[i].Writes(settings, histories[i], histories[i + 1]);
      }
    }
  }

  /**
   * What happened so far: the run of the protocol, how each drain that recorded its result ended, the
   * iterations, and the histories of unneeded nodes before the first of them and after each.
   */
  datatype Log = Log(start: int, protocol: State, steps: seq<Step>, outcomes: map<nat, DeleteResult>,
                     turns: seq<Turn>, histories: seq<seq<SD.Event>>)
  {
    ghost predicate Consistent(options: Options, settings: SD.Settings) {
      && Serial(steps) && Goes(options.delays, Initially(start), steps, protocol)
      && protocol.phase == Resting && Sound(protocol)
      && Chronicle(options, settings, turns, histories)
    }

    /** The times, the in-progress flag, the waiting results and the history are those of the log. */
    ghost predicate Shows(times: Times, inProgress: bool, held: Results, history: seq<SD.Event>) {
      && times == protocol.times && inProgress == protocol.inProgress
      && SameResults(held, protocol.results, outcomes)
      && |histories| == |turns| + 1 && histories[|turns|] == history
    }

    ghost function WithDrainStep(d: Delays, step: Step): Log
      requires Enabled(d, protocol, step) && ResultsExist(protocol)
    {
      this.(protocol := Next(d, protocol, step), steps := steps + [step])
    }

    ghost function WithTurn(turn: Turn, after: seq<SD.Event>): Log {
      this.(protocol := StateAfter(protocol, turn.time, turn.deed), steps := steps + StepsOf(turn.time, turn.deed),
            turns := turns + [turn], histories := histories + [after])
    }
  }

  lemma DrainStepLogged(options: Options, settings: SD.Settings, log: Log, step: Step)
    requires log.Consistent(options, settings) && OfDrain(step) && Enabled(options.delays, log.protocol, step)
    ensures log.WithDrainStep(options.delays, step).Consistent(options, settings)
  {
    var d, s := options.delays, log.protocol;
    SerialGoesOn(log.steps, [step]);
    GoesOn(d, Initially(log.start), log.steps, s, step, Next(d, s, step));
    StepKeepsSound(d, s, step, Next(d, s, step));
  }

  lemma TurnLogged(options: Options, settings: SD.Settings, log: Log, turn: Turn, after: seq<SD.Event>)
    requires log.Consistent(options, settings) && log.protocol.now <= turn.time
    requires turn.deed.DidTry? ==>
               CooldownOver(options.delays, log.protocol.times, turn.time) && !log.protocol.inProgress
    requires turn.deed.HeldBack? ==>
               !(CooldownOver(options.delays, log.protocol.times, turn.time) && !log.protocol.inProgress)
    requires turn.EvaluatedRightly(options) && turn.Writes(settings, log.histories[|log.turns|], after)
    ensures log.WithTurn(turn, after).Consistent(options, settings)
  {
    var d, s := options.delays, log.protocol;
    var steps, t := StepsOf(turn.time, turn.deed), StateAfter(s, turn.time, turn.deed);
    SerialIteration(log.steps, turn.time, turn.deed);
    IterationIsARun(d, s, turn.time, turn.deed);
    GoesFurther(d, Initially(log.start), log.steps, s, steps, t);
    RunsAreSound(d, s, steps, t);
    ChronicleGoesOn(options, settings, log.turns, log.histories, turn, after);
  }

  /**
   * What holds of all runs of the protocol holds of the log: its delays were kept, at most one drain is
   * under way, and its results were recorded before they were handed out, and only once.
   */
  lemma LogIsSafe(options: Options, settings: SD.Settings, log: Log)
    requires log.Consistent(options, settings)
    ensures Invariant(options.delays, log.start, log.protocol)
  {
    var states := GoesIsARun(options.delays, log.start, log.steps, log.protocol);
    RunKeepsInvariant(options.delays, log.start, log.steps, states, |log.steps|);
  }

  /** Node `n` was unneeded in a row of iterations up to the last one, for longer than it has to be to be removed. */
  ghost predicate UnneededForLong(settings: SD.Settings, turns: seq<Turn>, n: string)
    requires turns != []
  {
    var i := |turns| - 1;
    exists j :: 0 <= j <= i && UnneededThroughout(turns, j, i, n)
      && turns[j].time + turns[i].Span(settings, n) < turns[i].time
  }

  lemma RemovedInLast(options: Options, settings: SD.Settings, log: Log)
    requires log.Consistent(options, settings) && log.turns != []
    ensures forall n :: n in log.turns[|log.turns| - 1].Removed() ==> UnneededForLong(settings, log.turns, n)
  {
    var i := |log.turns| - 1;
    forall n | n in log.turns[i].Removed() ensures UnneededForLong(settings, log.turns, n) {
      var j := RemovedWasUnneeded(options, settings, log.turns, log.histories, i, n);
    }
  }

  /** What is kept of an iteration that began with history `before` and evaluated to `evaluated`. */
  ghost function TurnOf(survey: Survey, demand: Demand, basis: Basis, now: int, deed: Deed, before: seq<SD.Event>,
                        evaluated: seq<SD.Event>, refused: map<string, int>, hints: Hinting.Hints): Turn
  {
    var last := if |before| < |evaluated| && evaluated[|before|].Observe? then Some(evaluated[|before|].seen) else None;
    Turn(now, survey, demand, basis, deed, last, refused, hints)
  }

  /** What `RunOnce` promises about an iteration. */
  ghost predicate Promised(options: Options, settings: SD.Settings, turn: Turn, before: seq<SD.Event>,
                           evaluated: seq<SD.Event>, after: seq<SD.Event>, unneeded: map<string, int>)
  {
    && (if Forgets(turn.survey) then evaluated == before + [SD.RESET]
        else if ReachesScaleDown(options, turn.survey, turn.demand) && turn.basis.pdbsListed
          then EvaluatedAt(before, evaluated, turn.time)
        else evaluated == before)
    && (ReachesScaleDown(options, turn.survey, turn.demand) && turn.basis.pdbsListed ==>
          EvaluationShows(turn.basis.evaluation,
                          SD.SuitableNodes(turn.basis.evaluation, turn.refused, turn.time, turn.basis.nodesToCheck),
                          turn.hints, evaluated[|before|]))
    && SD.OnlyForgets(evaluated, after) && SD.Remembers(unneeded, after)
    && (forall n :: n in turn.Removed() ==>
        SD.LongUnneeded(evaluated, n, turn.Span(settings, n), turn.time) && n !in unneeded)
  }

  /** What `RunOnce` promises about the history makes the turn a right one. */
  lemma TurnIsRight(options: Options, settings: SD.Settings, turn: Turn, before: seq<SD.Event>,
                    evaluated: seq<SD.Event>, after: seq<SD.Event>, unneeded: map<string, int>)
    requires turn ==
             TurnOf(turn.survey, turn.demand, turn.basis, turn.time, turn.deed, before, evaluated, turn.refused,
                    turn.hints)
    requires Promised(options, settings, turn, before, evaluated, after, unneeded)
    ensures turn.EvaluatedRightly(options) && turn.Writes(settings, before, after)
  {
    assert evaluated == before + turn.Opening();
  }

  /** The log of an iteration shows what the iteration left behind. */
  lemma IterationLogged(options: Options, settings: SD.Settings, log: Log, turn: Turn, inProgress: bool, held: Results,
                        before: seq<SD.Event>, evaluated: seq<SD.Event>, after: seq<SD.Event>,
                        unneeded: map<string, int>, inProgress': bool, held': Results)
    requires log.Consistent(options, settings) && log.Shows(log.protocol.times, inProgress, held, before)
    requires turn ==
             TurnOf(turn.survey, turn.demand, turn.basis, turn.time, turn.deed, before, evaluated, turn.refused,
                    turn.hints)
    requires Promised(options, settings, turn, before, evaluated, after, unneeded) && log.protocol.now <= turn.time
    requires turn.deed.DidTry? ==> CooldownOver(options.delays, log.protocol.times, turn.time) && !inProgress
    requires turn.deed.HeldBack? ==> !(CooldownOver(options.delays, log.protocol.times, turn.time) && !inProgress)
    requires inProgress' == (inProgress || (turn.deed.DidTry? && turn.deed.status.result.NodeDeleteStarted?))
    requires Reported(turn.deed, held, held')
    ensures
      var log' := log.WithTurn(turn, after);
      && log'.Consistent(options, settings)
      && log'.Shows(TimesAfter(log.protocol.times, turn.time, turn.deed), inProgress', held', after)
      && (turn.deed.DidTry? ==> SameResults(turn.deed.status.nodeDeleteResults, log.protocol.results, log.outcomes))
      && forall n :: n in turn.Removed() ==> UnneededForLong(settings, log'.turns, n)
  {
    TurnIsRight(options, settings, turn, before, evaluated, after, unneeded);
    TurnLogged(options, settings, log, turn, after);
    RemovedInLast(options, settings, log.WithTurn(turn, after));
  }

  class Process {
    const autoscaler: StaticAutoscaler
    ghost var log: Log

    ghost predicate Valid()
      reads this, autoscaler, autoscaler.scaleDown, autoscaler.scaleDown.usageTracker,
            autoscaler.scaleDown.usageTracker.Repr
      reads autoscaler.scaleDown.nodeDeleteStatus
    {
      && autoscaler.Valid() && this !in autoscaler.scaleDown.usageTracker.Repr
      && log.Consistent(autoscaler.options, autoscaler.scaleDown.settings)
      && log.Shows(autoscaler.LastTimes(), autoscaler.scaleDown.nodeDeleteStatus.deleteInProgress,
                   autoscaler.scaleDown.nodeDeleteStatus.nodeDeleteResults, autoscaler.scaleDown.history)
    }

    constructor (options: Options, settings: SD.Settings, now: int)
      ensures Valid() && log == Log(now, Initially(now), [], map[], [], [[]])
      ensures autoscaler.options == options && autoscaler.scaleDown.settings == settings
      ensures fresh(autoscaler) && fresh(autoscaler.scaleDown) && fresh(autoscaler.scaleDown.usageTracker.Repr)
      ensures fresh(autoscaler.scaleDown.nodeDeleteStatus)
    {
      autoscaler := new StaticAutoscaler(options, settings, now);
      log := Log(now, Initially(now), [], map[], [], [[]]);
    }

    /** The goroutine of a drain clears the in-progress flag. */
    method EndDrain(id: nat)
      requires Valid() && Enabled(autoscaler.options.delays, log.protocol, Step.EndDrain(id))
      modifies this`log, autoscaler.scaleDown.nodeDeleteStatus
      ensures Valid() && log == old(log.WithDrainStep(autoscaler.options.delays, Step.EndDrain(id)))
    {
      ghost var before := log;
      autoscaler.scaleDown.nodeDeleteStatus.SetDeleteInProgress(false);
      DrainStepLogged(autoscaler.options, autoscaler.scaleDown.settings, before, Step.EndDrain(id));
      log := before.WithDrainStep(autoscaler.options.delays, Step.EndDrain(id));
    }

    /** After that it records its result. */
    method RecordResult(id: nat, node: string, result: DeleteResult)
      requires Valid() && Enabled(autoscaler.options.delays, log.protocol, Step.RecordResult(id))
               && node == log.protocol.drains[id].node
      modifies this`log, autoscaler.scaleDown.nodeDeleteStatus
      ensures Valid()
      ensures log ==
              old(log.WithDrainStep(autoscaler.options.delays,
                                    Step.RecordResult(id))).(outcomes := old(log.outcomes)[id := result])
    {
      ghost var before, held := log, autoscaler.scaleDown.nodeDeleteStatus.nodeDeleteResults;
      autoscaler.scaleDown.nodeDeleteStatus.AddNodeDeleteResult(node, result);
      DrainStepLogged(autoscaler.options, autoscaler.scaleDown.settings, before, Step.RecordResult(id));
      RecordedSame(before.protocol, held, before.outcomes, id, result);
      log := before.WithDrainStep(autoscaler.options.delays,
                                  Step.RecordResult(id)).(outcomes := before.outcomes[id := result]);
    }

    /**
     * One iteration. Nodes are removed only after a row of iterations, longer than the time for which
     * they have to be unneeded, that found them unneeded; and the results a scale-down reports are
     * exactly those that waited in the protocol.
     */
    method Iterate(survey: Survey, demand: Demand, basis: Basis, loopStart: int)
      returns (ok: bool, deed: Deed, ghost turn: Turn)
      requires Valid() && log.protocol.now <= loopStart
               && SD.PoolSize(autoscaler.scaleDown.settings, basis.evaluation) >= 0
      modifies this`log, autoscaler, autoscaler.scaleDown, autoscaler.scaleDown.usageTracker.Repr,
               autoscaler.scaleDown.nodeDeleteStatus
      ensures Valid() && fresh(autoscaler.scaleDown.usageTracker.Repr - old(autoscaler.scaleDown.usageTracker.Repr))
      ensures log == old(log).WithTurn(turn, autoscaler.scaleDown.history)
      ensures turn.time == loopStart && turn.survey == survey && turn.demand == demand && turn.basis == basis
              && turn.deed == deed
      ensures deed.DidTry? ==> SameResults(deed.status.nodeDeleteResults, old(log.protocol.results), log.outcomes)
      ensures ComesToGate(autoscaler.options, survey, demand, basis.pdbsListed) <==> deed.DidTry? || deed.HeldBack?
      ensures deed.DidTry? <==> ComesToGate(autoscaler.options, survey, demand, basis.pdbsListed)
                                && GateOpen(autoscaler.options.delays, old(log.protocol).(now := loopStart))
      ensures forall n :: n in turn.Removed() ==> UnneededForLong(autoscaler.scaleDown.settings, log.turns, n)
    {
      ghost var earlier, before := log, autoscaler.scaleDown.history;
      ghost var inProgress, held := autoscaler.scaleDown.nodeDeleteStatus.deleteInProgress,
                                    autoscaler.scaleDown.nodeDeleteStatus.nodeDeleteResults;
      ghost var refused, hints := autoscaler.scaleDown.unremovableNodes, autoscaler.scaleDown.podLocationHints;
      ghost var evaluated;
      ok, deed, evaluated := autoscaler.RunOnce(survey, demand, basis, loopStart);
      turn := TurnOf(survey, demand, basis, loopStart, deed, before, evaluated, refused, hints);
      ghost var after := autoscaler.scaleDown.history;
      assert Promised(autoscaler.options, autoscaler.scaleDown.settings, turn, before, evaluated, after,
                      autoscaler.scaleDown.unneededNodes);
      IterationLogged(autoscaler.options, autoscaler.scaleDown.settings, earlier, turn, inProgress, held, before,
                      evaluated, after, autoscaler.scaleDown.unneededNodes,
                      autoscaler.scaleDown.nodeDeleteStatus.deleteInProgress,
                      autoscaler.scaleDown.nodeDeleteStatus.nodeDeleteResults);
      log := earlier.WithTurn(turn, after);
    }
  }
}
