/**
 * The main loop of the autoscaler and the goroutines that drain nodes for it, as a transition
 * system (core/static_autoscaler.go, core/scale_down.go).
 *
 * The main loop takes the steps of one `RunOnce` after another; at any point between two of them a
 * drain may end or record its result. `trace` lists what became visible, in order.
 */
module LoopProtocol {

  /** How long scale-down has to wait after a scale-up, a deletion and a failure. */
  datatype Delays = Delays(afterAdd: int, afterDelete: int, afterFailure: int)

  /** When the last scale-up, deletion and failed scale-down happened. */
  datatype Times = Times(scaleUp: int, delete: int, fail: int)

  /** No delay is running any more. */
  predicate CooldownOver(d: Delays, t: Times, now: int) {
    && !(t.scaleUp + d.afterAdd > now)
    && !(t.fail + d.afterFailure > now)
    && !(t.delete + d.afterDelete > now)
  }

  // ----- the system

  datatype Stage = Draining | Ended | Recorded | HandedOut | Replaced

  /** A drain of a node, from its start until its result has been handed out. */
  datatype Drain = Drain(node: string, stage: Stage)

  /** Where the main loop is: between iterations, in one, past the gate, or past taking the results. */
  datatype Phase = Resting | Working | Admitted | Removing

  datatype Event =
    | ScaledUp(iteration: nat, time: int)
    | TriedScaleDown(iteration: nat, time: int)
    | Deleted(time: int)
    | Failed(time: int)
    | DrainStarted(id: nat)
    | DrainEnded(id: nat)
    | ResultRecorded(id: nat)
    | ResultsHandedOut(ids: set<nat>)

  /** `results` holds, for each node with a recorded result, the drain the result is of. */
  datatype State = State(times: Times, now: int, iteration: nat, phase: Phase, inProgress: bool,
                         drains: seq<Drain>, results: map<string, nat>, trace: seq<Event>)

  datatype Outcome = NodesDeleted | Error | Nothing | StartDrain(node: string)

  datatype Step =
    /** `RunOnce` is called. */
    | Begin(time: int)
    /** The iteration ends without another effect before it comes to the gate: an early return or an error. */
    | Leave
    /** The gate is closed: a delay is running or a node is being deleted, and the iteration ends. */
    | Blocked
    /** The scale-up succeeded, which ends the iteration. */
    | ScaleUpSucceeds
    /** The gate is open, and the iteration goes on to scale down. */
    | Admit
    /** The first thing a scale-down does is to take the results recorded so far. */
    | TakeResults
    /** The scale-down ends. */
    | Conclude(outcome: Outcome)
    /** The goroutine of a drain clears the in-progress flag, and later records its result. */
    | EndDrain(id: nat)
    | RecordResult(id: nat)

  function Initially(start: int): State {
    State(Times(start, start, start), start, 0, Resting, false, [], map[], [])
  }

  /** Nothing forbids to scale down: no delay is running and no node is being deleted. */
  predicate GateOpen(d: Delays, s: State) {
    CooldownOver(d, s.times, s.now) && !s.inProgress
  }

  predicate Enabled(d: Delays, s: State, step: Step) {
    match step
    case Begin(time) => s.phase == Resting && s.now <= time
    case Leave => s.phase == Working
    case Blocked => s.phase == Working && !GateOpen(d, s)
    case ScaleUpSucceeds => s.phase == Working
    case Admit => s.phase == Working && GateOpen(d, s)
    case TakeResults => s.phase == Admitted
    case Conclude(_) => s.phase == Removing
    case EndDrain(id) => id < |s.drains| && s.drains[id].stage == Draining
    case RecordResult(id) => id < |s.drains| && s.drains[id].stage == Ended
  }

  function SetStage(drains: seq<Drain>, id: nat, stage: Stage): seq<Drain>
    requires id < |drains|
  {
    drains[id := drains[id].(stage := stage)]
  }

  /** Every drain with a recorded result is now handed out. */
  function HandOut(drains: seq<Drain>): seq<Drain> {
    seq(|drains|, i requires 0 <= i < |drains| => if drains[i].stage == Recorded then drains[i].(stage := HandedOut)
        else drains[i])
  }

  /** A result of the same node that nobody took gives way to the new one. */
  function Record(drains: seq<Drain>, results: map<string, nat>, id: nat): seq<Drain>
    requires id < |drains| && forall n :: n in results ==> results[n] < |drains|
  {
    var node := drains[id].node;
    SetStage(if node in results then SetStage(drains, results[node], Replaced) else drains, id, Recorded)
  }

  ghost predicate ResultsExist(s: State) {
    forall n :: n in s.results ==> s.results[n] < |s.drains|
  }

  function Next(d: Delays, s: State, step: Step): State
    requires Enabled(d, s, step) && ResultsExist(s)
  {
    match step
    case Begin(time) => s.(phase := Working, now := time, iteration := s.iteration + 1)
    case Leave => s.(phase := Resting)
    case Blocked => s.(phase := Resting)
    case ScaleUpSucceeds =>
      s.(phase := Resting, times := s.times.(scaleUp := s.now), trace := s.trace + [ScaledUp(s.iteration, s.now)])
    case Admit => s.(phase := Admitted)
    case TakeResults =>
      s.(phase := Removing, results := map[], drains := HandOut(s.drains),
         trace := s.trace
           + [TriedScaleDown(s.iteration, s.now), ResultsHandedOut(set n | n in s.results :: s.results[n])])
    case Conclude(NodesDeleted) =>
      s.(phase := Resting, times := s.times.(delete := s.now), trace := s.trace + [Deleted(s.now)])
    case Conclude(Error) => s.(phase := Resting, times := s.times.(fail := s.now), trace := s.trace + [Failed(s.now)])
    case Conclude(Nothing) => s.(phase := Resting)
    case Conclude(StartDrain(node)) =>
      s.(phase := Resting, inProgress := true, drains := s.drains + [Drain(node, Draining)],
         trace := s.trace + [DrainStarted(|s.drains|)])
    case EndDrain(id) =>
      s.(inProgress := false, drains := SetStage(s.drains, id, Ended), trace := s.trace + [DrainEnded(id)])
    case RecordResult(id) =>
      s.(results := s.results[s.drains[id].node := id], drains := Record(s.drains, s.results, id),
         trace := s.trace + [ResultRecorded(id)])
  }

  // ----- the invariant: drains and results

  /** The flag says whether a drain is under way, and at most one is. */
  ghost predicate OneDrain(s: State) {
    && (s.inProgress <==> exists i :: 0 <= i < |s.drains| && s.drains[i].stage == Draining)
    && (forall i, j | 0 <= i < |s.drains| && 0 <= j < |s.drains| ::
          s.drains[i].stage == Draining && s.drains[j].stage == Draining ==> i == j)
    && (s.phase in {Admitted, Removing} ==> !s.inProgress)
  }

  /** The recorded results that can be handed out are exactly those of the drains in that stage. */
  ghost predicate ResultsMatch(s: State) {
    && ResultsExist(s)
    && (forall n :: n in s.results ==> s.drains[s.results[n]] == Drain(n, Recorded))
    && (forall i :: 0 <= i < |s.drains| && s.drains[i].stage == Recorded ==>
        s.drains[i].node in s.results && s.results[s.drains[i].node] == i)
  }

  lemma StepKeepsOneDrain(d: Delays, s: State, step: Step)
    requires OneDrain(s) && ResultsMatch(s) && Enabled(d, s, step)
    ensures OneDrain(Next(d, s, step))
  {
    var t := Next(d, s, step);
    match step
    case TakeResults =>
      assert forall i :: 0 <= i < |s.drains| ==> (t.drains[i].stage == Draining <==> s.drains[i].stage == Draining);
    case Conclude(outcome) =>
      if outcome.StartDrain? {
        assert t.drains[|s.drains|].stage == Draining;
        assert forall i :: 0 <= i < |s.drains| ==> t.drains[i] == s.drains[i];
      }
    case RecordResult(id) =>
      assert forall i :: 0 <= i < |s.drains| ==> (t.drains[i].stage == Draining <==> s.drains[i].stage == Draining);
    case _ =>
  }

  lemma StepKeepsResults(d: Delays, s: State, step: Step)
    requires ResultsMatch(s) && Enabled(d, s, step)
    ensures ResultsMatch(Next(d, s, step))
  {
    match step
    case TakeResults => HandOutKeepsResults(d, s);
    case Conclude(outcome) => ConcludeKeepsResults(d, s, outcome);
    case EndDrain(id) => EndKeepsResults(d, s, id);
    case RecordResult(id) => RecordKeepsResults(s.drains, s.results, id);
    case _ =>
  }

  lemma HandOutKeepsResults(d: Delays, s: State)
    requires ResultsMatch(s) && Enabled(d, s, TakeResults)
    ensures ResultsMatch(Next(d, s, TakeResults))
  {
  }

  lemma ConcludeKeepsResults(d: Delays, s: State, outcome: Outcome)
    requires ResultsMatch(s) && Enabled(d, s, Conclude(outcome))
    ensures ResultsMatch(Next(d, s, Conclude(outcome)))
  {
  }

  lemma EndKeepsResults(d: Delays, s: State, id: nat)
    requires ResultsMatch(s) && Enabled(d, s, EndDrain(id))
    ensures ResultsMatch(Next(d, s, EndDrain(id)))
  {
  }

  lemma RecordKeepsResults(drains: seq<Drain>, results: map<string, nat>, id: nat)
    requires id < |drains| && drains[id].stage == Ended
    requires forall n :: n in results ==> results[n] < |drains| && drains[results[n]] == Drain(n, Recorded)
    requires forall i :: 0 <= i < |drains| && drains[i].stage == Recorded ==>
               drains[i].node in results && results[drains[i].node] == i
    ensures
      var after, results' := Record(drains, results, id), results[drains[id].node := id];
      && |after| == |drains|
      && (forall n :: n in results' ==> after[results'[n]] == Drain(n, Recorded))
      && (forall i :: 0 <= i < |after| && after[i].stage == Recorded ==>
          after[i].node in results' && results'[after[i].node] == i)
  {
  }

  // ----- the invariant: what may follow what

  /** `f` may come some time after `e`. */
  predicate Compatible(d: Delays, e: Event, f: Event) {
    match f
    case TriedScaleDown(iteration, time) =>
      && (e.ScaledUp? ==> e.iteration != iteration && e.time + d.afterAdd <= time)
      && (e.Deleted? ==> e.time + d.afterDelete <= time)
      && (e.Failed? ==> e.time + d.afterFailure <= time)
    case ScaledUp(iteration, _) => e.TriedScaleDown? ==> e.iteration != iteration
    case DrainStarted(id) => e.DrainStarted? ==> e.id != id
    case ResultRecorded(id) => (e.ResultRecorded? ==> e.id != id) && (e.ResultsHandedOut? ==> id !in e.ids)
    case ResultsHandedOut(ids) => e.ResultsHandedOut? ==> e.ids !! ids
    case _ => true
  }

  ghost predicate Ordered(d: Delays, trace: seq<Event>) {
    forall i, j :: 0 <= i < j < |trace| ==> Compatible(d, trace[i], trace[j])
  }

  predicate Reached(s: State, id: nat, stages: set<Stage>) {
    id < |s.drains| && s.drains[id].stage in stages
  }

  /** What the state still shows of an earlier event. */
  ghost predicate Shown(d: Delays, start: int, s: State, e: Event) {
    match e
    case ScaledUp(iteration, time) => time <= s.times.scaleUp && iteration <= s.iteration
      && (s.phase != Resting ==> iteration < s.iteration)
    case TriedScaleDown(iteration, time) =>
      && iteration <= s.iteration && (s.phase in {Working, Admitted} ==> iteration < s.iteration)
      && CooldownOver(d, Times(start, start, start), time)
    case Deleted(time) => time <= s.times.delete
    case Failed(time) => time <= s.times.fail
    case DrainStarted(id) => id < |s.drains|
    case DrainEnded(id) => Reached(s, id, {Ended, Recorded, HandedOut, Replaced})
    case ResultRecorded(id) => Reached(s, id, {Recorded, HandedOut, Replaced})
    case ResultsHandedOut(ids) => forall id :: id in ids ==> Reached(s, id, {HandedOut})
  }

  ghost predicate AllShown(d: Delays, start: int, s: State) {
    forall i :: 0 <= i < |s.trace| ==> Shown(d, start, s, s.trace[i])
  }

  ghost predicate Timely(d: Delays, start: int, s: State) {
    && start <= s.times.scaleUp <= s.now && start <= s.times.delete <= s.now && start <= s.times.fail <= s.now
    && (s.phase == Admitted ==> CooldownOver(d, s.times, s.now))
  }

  lemma StepKeepsTimely(d: Delays, start: int, s: State, step: Step)
    requires Timely(d, start, s) && ResultsExist(s) && Enabled(d, s, step)
    ensures Timely(d, start, Next(d, s, step))
  {
  }

  /** No drain goes back to an earlier stage. */
  lemma StagesAdvance(d: Delays, s: State, step: Step, id: nat, stages: set<Stage>)
    requires ResultsMatch(s) && Enabled(d, s, step) && Reached(s, id, stages)
    requires stages in {{Ended, Recorded, HandedOut, Replaced}, {Recorded, HandedOut, Replaced}, {HandedOut}}
    ensures Reached(Next(d, s, step), id, stages)
  {
    match step
    case RecordResult(i) =>
      var node := s.drains[i].node;
      assert node in s.results ==> s.drains[s.results[node]].stage == Recorded;
    case _ =>
  }

  /** Events shown before a step are shown after it. */
  lemma StillShown(d: Delays, start: int, s: State, step: Step, e: Event)
    requires Timely(d, start, s) && ResultsMatch(s) && Enabled(d, s, step) && Shown(d, start, s, e)
    ensures Shown(d, start, Next(d, s, step), e)
  {
    match e
    case DrainEnded(id) => StagesAdvance(d, s, step, id, {Ended, Recorded, HandedOut, Replaced});
    case ResultRecorded(id) => StagesAdvance(d, s, step, id, {Recorded, HandedOut, Replaced});
    case ResultsHandedOut(ids) =>
      forall id | id in ids ensures Reached(Next(d, s, step), id, {HandedOut}) {
        StagesAdvance(d, s, step, id, {HandedOut});
      }
    case _ =>
  }

  /** The events of a step. */
  function Emitted(s: State, step: Step): seq<Event> {
    match step
    case ScaleUpSucceeds => [ScaledUp(s.iteration, s.now)]
    case TakeResults => [TriedScaleDown(s.iteration, s.now), ResultsHandedOut(set n | n in s.results :: s.results[n])]
    case Conclude(NodesDeleted) => [Deleted(s.now)]
    case Conclude(Error) => [Failed(s.now)]
    case Conclude(StartDrain(_)) => [DrainStarted(|s.drains|)]
    case EndDrain(id) => [DrainEnded(id)]
    case RecordResult(id) => [ResultRecorded(id)]
    case _ => []
  }

  lemma NewShown(d: Delays, start: int, s: State, step: Step, k: nat)
    requires Timely(d, start, s) && ResultsMatch(s) && Enabled(d, s, step) && k < |Emitted(s, step)|
    ensures Shown(d, start, Next(d, s, step), Emitted(s, step)[k])
  {
  }

  lemma NewCompatible(d: Delays, start: int, s: State, step: Step, e: Event, k: nat)
    requires Timely(d, start, s) && ResultsMatch(s) && Enabled(d, s, step) && Shown(d, start, s, e)
             && k < |Emitted(s, step)|
    ensures Compatible(d, e, Emitted(s, step)[k])
  {
    if step.TakeResults? && k == 1 && e.ResultsHandedOut? {
      forall id | id in e.ids ensures id !in Emitted(s, step)[k].ids {
        assert Reached(s, id, {HandedOut});
      }
    }
    if step.RecordResult? && e.ResultsHandedOut? {
      assert step.id in e.ids ==> Reached(s, step.id, {HandedOut});
    }
  }

  lemma StepKeepsTrace(d: Delays, start: int, s: State, step: Step)
    requires Timely(d, start, s) && ResultsMatch(s) && Enabled(d, s, step)
    requires Ordered(d, s.trace) && AllShown(d, start, s)
    ensures Ordered(d, Next(d, s, step).trace) && AllShown(d, start, Next(d, s, step))
  {
    var t := Next(d, s, step);
    assert t.trace == s.trace + Emitted(s, step);
    forall i | 0 <= i < |t.trace| ensures Shown(d, start, t, t.trace[i]) {
      if i < |s.trace| {
        StillShown(d, start, s, step, s.trace[i]);
      } else {
        NewShown(d, start, s, step, i - |s.trace|);
      }
    }
    forall i, j | 0 <= i < j < |t.trace| ensures Compatible(d, t.trace[i], t.trace[j]) {
      if j >= |s.trace| && i < |s.trace| {
        NewCompatible(d, start, s, step, s.trace[i], j - |s.trace|);
      }
    }
  }

  /** Stages that results reach leave their events in the trace. */
  ghost predicate StagesShown(s: State) {
    forall id :: 0 <= id < |s.drains| ==> StageShown(s, id)
  }

  ghost predicate StageShown(s: State, id: nat)
    requires id < |s.drains|
  {
    && (s.drains[id].stage in {Recorded, HandedOut, Replaced} ==> ResultRecorded(id) in s.trace)
    && (s.drains[id].stage == HandedOut ==> InSomeHandOut(s.trace, id))
    && (s.drains[id].stage == Recorded ==> HeldSince(s.trace, id))
    && (s.drains[id].stage == Replaced ==> GaveWay(s, id))
  }

  ghost predicate InSomeHandOut(trace: seq<Event>, id: nat) {
    exists i :: 0 <= i < |trace| && trace[i].ResultsHandedOut? && id in trace[i].ids
  }

  /** No results were handed out between the two positions. */
  ghost predicate NoHandOut(trace: seq<Event>, from: nat, to: nat) {
    forall k :: from < k < to && k < |trace| ==> !trace[k].ResultsHandedOut?
  }

  /** The result was recorded, and no results were handed out since. */
  ghost predicate HeldSince(trace: seq<Event>, id: nat) {
    exists i: nat :: i < |trace| && trace[i] == ResultRecorded(id) && NoHandOut(trace, i, |trace|)
  }

  /** A newer result of the same node was recorded before results were handed out, so that this one never is. */
  ghost predicate GaveWay(s: State, id: nat)
    requires id < |s.drains|
  {
    exists i: nat, j: nat ::
      i < j < |s.trace| && s.trace[i] == ResultRecorded(id) && OfSameNode(s, id, s.trace[j]) && NoHandOut(s.trace, i, j)
  }

  /** The result of another drain of the same node was recorded. */
  predicate OfSameNode(s: State, id: nat, e: Event)
    requires id < |s.drains|
  {
    e.ResultRecorded? && e.id != id && e.id < |s.drains| && s.drains[e.id].node == s.drains[id].node
  }

  lemma HandOutsGrow(trace: seq<Event>, more: seq<Event>, id: nat)
    requires InSomeHandOut(trace, id)
    ensures InSomeHandOut(trace + more, id)
  {
    var i :| 0 <= i < |trace| && trace[i].ResultsHandedOut? && id in trace[i].ids;
    assert (trace + more)[i] == trace[i];
  }

  lemma HeldGrows(trace: seq<Event>, more: seq<Event>, id: nat)
    requires HeldSince(trace, id) && forall e :: e in more ==> !e.ResultsHandedOut?
    ensures HeldSince(trace + more, id)
  {
    var i: nat :| i < |trace| && trace[i] == ResultRecorded(id) && NoHandOut(trace, i, |trace|);
    assert (trace + more)[i] == trace[i];
  }

  lemma GaveWayStays(s: State, t: State, more: seq<Event>, id: nat)
    requires id < |s.drains| <= |t.drains| && GaveWay(s, id) && t.trace == s.trace + more
    requires forall i :: 0 <= i < |s.drains| ==> t.drains[i].node == s.drains[i].node
    ensures GaveWay(t, id)
  {
    var i: nat, j: nat :| i < j < |s.trace| && s.trace[i] == ResultRecorded(id) && OfSameNode(s, id, s.trace[j])
      && NoHandOut(s.trace, i, j);
    assert t.trace[i] == s.trace[i] && t.trace[j] == s.trace[j];
    assert forall k :: 0 <= k < j ==> t.trace[k] == s.trace[k];
    assert OfSameNode(t, id, t.trace[j]) && NoHandOut(t.trace, i, j);
  }

  lemma NowGivesWay(s: State, t: State, id: nat, newer: nat)
    requires id < |s.drains| == |t.drains| && HeldSince(s.trace, id) && t.trace == s.trace + [ResultRecorded(newer)]
    requires OfSameNode(t, id, ResultRecorded(newer))
    ensures GaveWay(t, id)
  {
    var i: nat :| i < |s.trace| && s.trace[i] == ResultRecorded(id) && NoHandOut(s.trace, i, |s.trace|);
    assert t.trace[i] == s.trace[i] && t.trace[|s.trace|] == ResultRecorded(newer);
    assert NoHandOut(t.trace, i, |s.trace|);
  }

  /** Drains keep their nodes, and none disappears. */
  lemma DrainsStay(d: Delays, s: State, step: Step)
    requires ResultsMatch(s) && Enabled(d, s, step)
    ensures |s.drains| <= |Next(d, s, step).drains|
    ensures forall i :: 0 <= i < |s.drains| ==> Next(d, s, step).drains[i].node == s.drains[i].node
  {
  }

  lemma StepKeepsStages(d: Delays, s: State, step: Step)
    requires ResultsMatch(s) && Enabled(d, s, step) && StagesShown(s)
    ensures StagesShown(Next(d, s, step))
  {
    var t := Next(d, s, step);
    assert t.trace == s.trace + Emitted(s, step);
    DrainsStay(d, s, step);
    forall id | 0 <= id < |t.drains| ensures StageShown(t, id) {
      if id < |s.drains| {
        assert StageShown(s, id);
        if t.drains[id].stage == s.drains[id].stage {
          StageStaysShown(d, s, step, id);
        } else {
          NewStageShown(d, s, step, id);
        }
      }
    }
  }

  lemma StageStaysShown(d: Delays, s: State, step: Step, id: nat)
    requires ResultsMatch(s) && Enabled(d, s, step) && id < |s.drains| && StageShown(s, id)
    requires id < |Next(d, s, step).drains| && Next(d, s, step).drains[id].stage == s.drains[id].stage
    ensures StageShown(Next(d, s, step), id)
  {
    var t, more := Next(d, s, step), Emitted(s, step);
    assert t.trace == s.trace + more;
    match s.drains[id].stage
    case HandedOut => HandOutsGrow(s.trace, more, id);
    case Recorded => HeldGrows(s.trace, more, id);
    case Replaced =>
      DrainsStay(d, s, step);
      GaveWayStays(s, t, more, id);
    case _ =>
  }

  lemma NewStageShown(d: Delays, s: State, step: Step, id: nat)
    requires ResultsMatch(s) && Enabled(d, s, step) && id < |s.drains| && StageShown(s, id)
    requires id < |Next(d, s, step).drains| && Next(d, s, step).drains[id].stage != s.drains[id].stage
    ensures StageShown(Next(d, s, step), id)
  {
    var t := Next(d, s, step);
    match t.drains[id].stage
    case HandedOut =>
      assert s.results[s.drains[id].node] == id;
      assert t.trace[|s.trace| + 1] == ResultsHandedOut(set n | n in s.results :: s.results[n]);
    case Recorded =>
      assert t.trace[|s.trace|] == ResultRecorded(id);
    case Replaced =>
      assert s.drains[id].stage == Recorded && step.RecordResult?;
      NowGivesWay(s, t, id, step.id);
    case _ =>
  }

  // ----- whole runs

  ghost predicate Invariant(d: Delays, start: int, s: State) {
    && OneDrain(s) && ResultsMatch(s) && StagesShown(s)
    && Timely(d, start, s) && Ordered(d, s.trace) && AllShown(d, start, s)
  }

  /** `states` is a run: it starts initially, and each state comes from the one before by an enabled step. */
  ghost predicate IsRun(d: Delays, start: int, steps: seq<Step>, states: seq<State>) {
    && |states| == |steps| + 1 && states[0] == Initially(start)
    && forall i :: 0 <= i < |steps| ==> Follows(d, states[i], steps[i], states[i + 1])
  }

  ghost predicate Follows(d: Delays, s: State, step: Step, t: State) {
    Enabled(d, s, step) && ResultsExist(s) && t == Next(d, s, step)
  }

  lemma {:induction false} RunKeepsInvariant(d: Delays, start: int, steps: seq<Step>, states: seq<State>, k: nat)
    requires IsRun(d, start, steps, states) && k <= |steps|
    ensures Invariant(d, start, states[k])
  {
    if k > 0 {
      RunKeepsInvariant(d, start, steps, states, k - 1);
      assert Follows(d, states[k - 1], steps[k - 1], states[k]);
      var s, step := states[k - 1], steps[k - 1];
      StepKeepsOneDrain(d, s, step);
      StepKeepsResults(d, s, step);
      StepKeepsStages(d, s, step);
      StepKeepsTimely(d, start, s, step);
      StepKeepsTrace(d, start, s, step);
    }
  }

  /**
   * In any run, no scale-down is tried in an iteration whose scale-up succeeded, nor before the delays
   * after the start, earlier scale-ups, deletions and failures are over.
   */
  lemma CooldownsAreKept(d: Delays, start: int, steps: seq<Step>, states: seq<State>, i: nat, j: nat)
    requires IsRun(d, start, steps, states)
    requires
      var trace := states[|steps|].trace;
      i < |trace| && j < |trace| && trace[j].TriedScaleDown?
    ensures
      var trace := states[|steps|].trace;
      && CooldownOver(d, Times(start, start, start), trace[j].time)
      && (trace[i].ScaledUp? ==> trace[i].iteration != trace[j].iteration)
      && (i < j && trace[i].ScaledUp? ==> trace[i].time + d.afterAdd <= trace[j].time)
      && (i < j && trace[i].Deleted? ==> trace[i].time + d.afterDelete <= trace[j].time)
      && (i < j && trace[i].Failed? ==> trace[i].time + d.afterFailure <= trace[j].time)
  {
    RunKeepsInvariant(d, start, steps, states, |steps|);
    var trace := states[|steps|].trace;
    assert Shown(d, start, states[|steps|], trace[j]);
    if i < j {
      assert Compatible(d, trace[i], trace[j]);
    } else if j < i {
      assert Compatible(d, trace[j], trace[i]);
    }
  }

  /** At every moment at most one node is being drained, and then no scale-down has got past the gate. */
  lemma OneDrainAtATime(d: Delays, start: int, steps: seq<Step>, states: seq<State>, k: nat, i: nat, j: nat)
    requires IsRun(d, start, steps, states) && k <= |steps|
    requires Reached(states[k], i, {Draining}) && Reached(states[k], j, {Draining})
    ensures i == j && states[k].inProgress && states[k].phase !in {Admitted, Removing}
  {
    RunKeepsInvariant(d, start, steps, states, k);
  }

  /** No result is recorded or handed out twice. */
  lemma ResultsAreHandedOutOnce(d: Delays, start: int, steps: seq<Step>, states: seq<State>, i: nat, j: nat)
    requires IsRun(d, start, steps, states) && i < j < |states[|steps|].trace|
    ensures
      var e, f := states[|steps|].trace[i], states[|steps|].trace[j];
      && (e.ResultsHandedOut? && f.ResultsHandedOut? ==> e.ids !! f.ids)
      && (e.ResultRecorded? && f.ResultRecorded? ==> e.id != f.id)
  {
    RunKeepsInvariant(d, start, steps, states, |steps|);
    assert Compatible(d, states[|steps|].trace[i], states[|steps|].trace[j]);
  }

  /** Only results recorded before are handed out. */
  lemma HandedOutWereRecorded(d: Delays, start: int, steps: seq<Step>, states: seq<State>, j: nat, id: nat)
    requires IsRun(d, start, steps, states)
    requires
      var trace := states[|steps|].trace;
      j < |trace| && trace[j].ResultsHandedOut? && id in trace[j].ids
    ensures exists i :: 0 <= i < j && states[|steps|].trace[i] == ResultRecorded(id)
  {
    RunKeepsInvariant(d, start, steps, states, |steps|);
    var s := states[|steps|];
    assert Shown(d, start, s, s.trace[j]);
    assert Reached(s, id, {HandedOut}) && StageShown(s, id);
    var i :| 0 <= i < |s.trace| && s.trace[i] == ResultRecorded(id);
    RecordedComesFirst(d, s.trace, i, j, id);
  }

  lemma RecordedComesFirst(d: Delays, trace: seq<Event>, i: nat, j: nat, id: nat)
    requires Ordered(d, trace) && i < |trace| && j < |trace|
    requires trace[i] == ResultRecorded(id) && trace[j].ResultsHandedOut? && id in trace[j].ids
    ensures i < j
  {
  }

  /**
   * What becomes of a recorded result: it was handed out, or is waiting for that, or a newer one of the
   * same node was recorded before results were handed out and took its place, so that it never is.
   */
  lemma FateOfResults(d: Delays, start: int, steps: seq<Step>, states: seq<State>, i: nat)
    requires IsRun(d, start, steps, states)
    requires i < |states[|steps|].trace| && states[|steps|].trace[i].ResultRecorded?
    ensures
      var s := states[|steps|];
      var id := s.trace[i].id;
      && Reached(s, id, {Recorded, HandedOut, Replaced})
      && (s.drains[id].stage == HandedOut ==> InSomeHandOut(s.trace, id))
      && (s.drains[id].stage == Recorded ==> Waiting(s, id))
      && (s.drains[id].stage == Replaced ==> GaveWay(s, id) && !InSomeHandOut(s.trace, id))
  {
    RunKeepsInvariant(d, start, steps, states, |steps|);
    var s := states[|steps|];
    assert Shown(d, start, s, s.trace[i]);
    assert StageShown(s, s.trace[i].id);
    if s.drains[s.trace[i].id].stage == Replaced {
      NotHandedOut(d, start, s, s.trace[i].id);
    }
  }

  lemma NotHandedOut(d: Delays, start: int, s: State, id: nat)
    requires AllShown(d, start, s) && Reached(s, id, {Recorded, Replaced})
    ensures !InSomeHandOut(s.trace, id)
  {
    forall k | 0 <= k < |s.trace| && s.trace[k].ResultsHandedOut? ensures id !in s.trace[k].ids {
      assert Shown(d, start, s, s.trace[k]);
    }
  }

  ghost predicate Waiting(s: State, id: nat) {
    id < |s.drains| && s.drains[id].node in s.results && s.results[s.drains[id].node] == id
  }
}
