/**
 * When the result of a drain is lost: a newer result of the same node is recorded before it was handed
 * out. This happens only if a node is drained again while its last result is still to come or waits.
 */
module LostResults {
  import opened Interleaving
  import opened LoopProtocol
  import opened Wrappers

  /** The result of the drain is still to come, or waits to be handed out. */
  predicate Pending(drain: Drain) {
    drain.stage in {Draining, Ended, Recorded}
  }

  ghost predicate OnePerNode(s: State) {
    forall i, j :: 0 <= i < j < |s.drains| && Pending(s.drains[i]) && Pending(s.drains[j]) ==>
        s.drains[i].node != s.drains[j].node
  }

  ghost predicate NothingReplaced(s: State) {
    forall i :: 0 <= i < |s.drains| ==> s.drains[i].stage != Replaced
  }

  /** No ended drain of `node` still owes its result or has it waiting. */
  predicate Free(s: State, node: string) {
    forall i :: 0 <= i < |s.drains| && s.drains[i].node == node ==> s.drains[i].stage !in {Ended, Recorded}
  }

  /** The step starts no drain of a node whose last result is outstanding. */
  predicate Careful(s: State, step: Step) {
    step.Conclude? && step.outcome.StartDrain? ==> Free(s, step.outcome.node)
  }

  lemma CarefulStep(d: Delays, s: State, step: Step)
    requires Sound(s) && Enabled(d, s, step) && Careful(s, step) && OnePerNode(s) && NothingReplaced(s)
    ensures OnePerNode(Next(d, s, step)) && NothingReplaced(Next(d, s, step))
  {
    var t := Next(d, s, step);
    match step
    case RecordResult(id) => NoneWaits(s, id);
    case _ =>
  }

  lemma NoneWaits(s: State, id: nat)
    requires ResultsMatch(s) && OnePerNode(s) && id < |s.drains| && s.drains[id].stage == Ended
    ensures s.drains[id].node !in s.results
  {
    forall n | n in s.results ensures n != s.drains[id].node {
      assert s.drains[s.results[n]] == Drain(n, Recorded);
    }
  }

  /** Every start of a drain on the way is careful. */
  ghost predicate CarefulWay(d: Delays, s: State, steps: seq<Step>) {
    steps != [] ==>
      var front := steps[..|steps| - 1];
      && CarefulWay(d, s, front)
      && (After(d, s, front).Some? ==> Careful(After(d, s, front).value, steps[|steps| - 1]))
  }

  lemma {:induction false} CarefulWayLosesNothing(d: Delays, s: State, steps: seq<Step>, t: State)
    requires Sound(s) && OnePerNode(s) && NothingReplaced(s) && Goes(d, s, steps, t) && CarefulWay(d, s, steps)
    ensures OnePerNode(t) && NothingReplaced(t)
  {
    if steps != [] {
      var front, last := steps[..|steps| - 1], steps[|steps| - 1];
      var u := After(d, s, front).value;
      CarefulWayLosesNothing(d, s, front, u);
      RunsAreSound(d, s, front, u);
      CarefulStep(d, u, last);
    }
  }

  /** In a run that never starts to drain a node whose last result is outstanding, no result is lost. */
  lemma CarefulRunsLoseNothing(d: Delays, start: int, steps: seq<Step>, states: seq<State>, k: nat)
    requires IsRun(d, start, steps, states) && k <= |steps|
    requires forall i :: 0 <= i < |steps| ==> Careful(states[i], steps[i])
    ensures NothingReplaced(states[k])
  {
    RunGoes(d, start, steps, states, k);
    WayIsCareful(d, start, steps, states, k);
    CarefulWayLosesNothing(d, Initially(start), steps[..k], states[k]);
  }

  lemma {:induction false} WayIsCareful(d: Delays, start: int, steps: seq<Step>, states: seq<State>, k: nat)
    requires IsRun(d, start, steps, states) && k <= |steps|
    requires forall i :: 0 <= i < |steps| ==> Careful(states[i], steps[i])
    ensures CarefulWay(d, Initially(start), steps[..k])
  {
    if k > 0 {
      WayIsCareful(d, start, steps, states, k - 1);
      RunGoes(d, start, steps, states, k - 1);
      assert steps[..k][..k - 1] == steps[..k - 1];
    }
  }

  // ----- and only in such

  /** The old drain records its result, if it has not, and then the new one ends and records its own. */
  function LosingSteps(s: State, i: nat): seq<Step>
    requires i < |s.drains|
  {
    (if s.drains[i].stage == Ended then [RecordResult(i)] else []) + [EndDrain(|s.drains|), RecordResult(|s.drains|)]
  }

  /** The new drain of the node ends and records its result while that of drain `i` waits. */
  lemma NewerTakesPlace(d: Delays, s: State, i: nat, newer: nat) returns (t: State)
    requires Sound(s) && i < |s.drains| && newer < |s.drains| && s.drains[i].stage == Recorded
    requires s.drains[newer] == Drain(s.drains[i].node, Draining)
    ensures Goes(d, s, [EndDrain(newer), RecordResult(newer)], t)
    ensures i < |t.drains| && t.drains[i] == Drain(s.drains[i].node, Replaced)
  {
    var u := Next(d, s, EndDrain(newer));
    StepKeepsResults(d, s, EndDrain(newer));
    t := Next(d, u, RecordResult(newer));
    GoesOn(d, s, [], s, EndDrain(newer), u);
    assert [] + [EndDrain(newer)] == [EndDrain(newer)];
    GoesOn(d, s, [EndDrain(newer)], u, RecordResult(newer), t);
    assert [EndDrain(newer)] + [RecordResult(newer)] == [EndDrain(newer), RecordResult(newer)];
    assert u.results[u.drains[i].node] == i;
  }

  /** If a drain of a node is started while an ended one is outstanding, the drains alone can lose the old result. */
  lemma StartMayLose(d: Delays, s: State, node: string, i: nat) returns (t: State)
    requires Sound(s) && s.phase == Removing && i < |s.drains|
    requires s.drains[i].node == node && s.drains[i].stage in {Ended, Recorded}
    ensures Goes(d, Next(d, s, Conclude(StartDrain(node))), LosingSteps(s, i), t)
    ensures i < |t.drains| && t.drains[i] == Drain(node, Replaced)
  {
    var step := Conclude(StartDrain(node));
    var u := Next(d, s, step);
    StepKeepsSound(d, s, step, u);
    if s.drains[i].stage == Ended {
      var v := Next(d, u, RecordResult(i));
      StepKeepsSound(d, u, RecordResult(i), v);
      t := NewerTakesPlace(d, v, i, |s.drains|);
      GoesOn(d, u, [], u, RecordResult(i), v);
      assert [] + [RecordResult(i)] == [RecordResult(i)];
      GoesFurther(d, u, [RecordResult(i)], v, [EndDrain(|s.drains|), RecordResult(|s.drains|)], t);
    } else {
      t := NewerTakesPlace(d, u, i, |s.drains|);
      assert LosingSteps(s, i) == [EndDrain(|s.drains|), RecordResult(|s.drains|)];
    }
  }

  lemma DrainStepsAreCareful(d: Delays, s: State, i: nat, u: State)
    requires i < |s.drains|
    ensures CarefulWay(d, u, LosingSteps(s, i))
  {
    AllCareful(d, u, LosingSteps(s, i));
  }

  lemma {:induction false} AllCareful(d: Delays, s: State, steps: seq<Step>)
    requires AllOfDrain(steps)
    ensures CarefulWay(d, s, steps)
  {
    if steps != [] {
      assert OfDrain(steps[|steps| - 1]);
      AllCareful(d, s, steps[..|steps| - 1]);
    }
  }

  /**
   * The condition is exact: where nothing was lost so far, a drain of `node` may be started without the
   * danger of a loss before the next careless start, exactly if no ended drain of it is outstanding.
   */
  lemma StartIsSafeIff(d: Delays, s: State, node: string)
    requires Sound(s) && s.phase == Removing && OnePerNode(s) && NothingReplaced(s)
    ensures
      var u := Next(d, s, Conclude(StartDrain(node)));
      Free(s, node) <==> forall steps, t :: Goes(d, u, steps, t) && CarefulWay(d, u, steps) ==> NothingReplaced(t)
  {
    var step := Conclude(StartDrain(node));
    var u := Next(d, s, step);
    StepKeepsSound(d, s, step, u);
    if Free(s, node) {
      CarefulStep(d, s, step);
      forall steps, t | Goes(d, u, steps, t) && CarefulWay(d, u, steps) ensures NothingReplaced(t) {
        CarefulWayLosesNothing(d, u, steps, t);
      }
    } else {
      var i :| 0 <= i < |s.drains| && s.drains[i].node == node && s.drains[i].stage in {Ended, Recorded};
      var t := StartMayLose(d, s, node, i);
      DrainStepsAreCareful(d, s, i, u);
      assert t.drains[i].stage == Replaced;
    }
  }

  // ----- a run in which a result is lost, and one in which a drain delays nothing

  /** A time at which no delay after the start is running any more. */
  function Late(d: Delays, start: int): (now: int)
    ensures start <= now && CooldownOver(d, Times(start, start, start), now)
  {
    var longest := if d.afterAdd > d.afterDelete then d.afterAdd else d.afterDelete;
    var longest' := if longest > d.afterFailure then longest else d.afterFailure;
    if longest' > 0 then start + longest' else start
  }

  /** The first iteration that passes the gate starts to drain a node. */
  lemma FirstDrain(d: Delays, start: int, node: string) returns (steps: seq<Step>, s: State)
    ensures Goes(d, Initially(start), steps, s) && Sound(s) && s.phase == Resting && s.inProgress
    ensures s.drains == [Drain(node, Draining)] && s.results == map[]
    ensures s.times == Times(start, start, start) && s.now == Late(d, start)
  {
    var now := Late(d, start);
    TryIsARun(d, Initially(start), now, StartDrain(node));
    steps := [Begin(now), Admit, TakeResults, Conclude(StartDrain(node))];
    s := Next(d, Taken(Initially(start), now), Conclude(StartDrain(node)));
    RunsAreSound(d, Initially(start), steps, s);
  }

  /**
   * A result is lost: the drain of a node ends, the next iteration starts to drain the same node again
   * before the result was recorded, and the two results are recorded one after the other.
   */
  lemma ResultIsLost(d: Delays, start: int, node: string) returns (steps: seq<Step>, states: seq<State>)
    ensures IsRun(d, start, steps, states) && Reached(states[|steps|], 0, {Replaced})
  {
    var first, s := FirstDrain(d, start, node);
    var t := Next(d, s, EndDrain(0));
    StepKeepsSound(d, s, EndDrain(0), t);
    GoesOn(d, Initially(start), first, s, EndDrain(0), t);
    TakingIsARun(d, t, t.now);
    var u := Taken(t, t.now);
    RunsAreSound(d, t, [Begin(t.now), Admit, TakeResults], u);
    GoesFurther(d, Initially(start), first + [EndDrain(0)], t, [Begin(t.now), Admit, TakeResults], u);
    var step, way := Conclude(StartDrain(node)), first + [EndDrain(0)] + [Begin(t.now), Admit, TakeResults];
    var last := StartMayLose(d, u, node, 0);
    GoesOn(d, Initially(start), way, u, step, Next(d, u, step));
    GoesFurther(d, Initially(start), way + [step], Next(d, u, step), LosingSteps(u, 0), last);
    steps := way + [step] + LosingSteps(u, 0);
    states := GoesIsARun(d, start, steps, last);
  }

  /** An iteration in which a drain ends passes the gate at the same time. */
  lemma DrainDelaysNothing(d: Delays, start: int, node: string) returns (steps: seq<Step>, states: seq<State>, k: nat)
    ensures IsRun(d, start, steps, states) && k + 2 == |steps|
    ensures steps[k] == EndDrain(0) && steps[k + 1] == Admit && states[k].inProgress
    ensures states[k].now == states[k + 2].now && states[k + 2].phase == Admitted
  {
    var first, s := FirstDrain(d, start, node);
    var t := Next(d, s, Begin(s.now));
    var u := Next(d, t, EndDrain(0));
    var v := Next(d, u, Admit);
    GoesOn(d, Initially(start), first, s, Begin(s.now), t);
    var before := GoesIsARun(d, start, first + [Begin(s.now)], t);
    k := |first| + 1;
    steps := first + [Begin(s.now)] + [EndDrain(0), Admit];
    states := before + [u, v];
    forall i | 0 <= i < |steps| ensures Follows(d, states[i], steps[i], states[i + 1]) {
      if i < k {
        assert Follows(d, before[i], (first + [Begin(s.now)])[i], before[i + 1]);
      }
    }
  }

  // ----- what the delays count from

  /** The times of the last scale-up, deletion and failure in the trace, or the start. */
  function TimesIn(start: int, trace: seq<Event>): Times {
    if trace == [] then Times(start, start, start)
    else
      var before := TimesIn(start, trace[..|trace| - 1]);
      match trace[|trace| - 1]
      case ScaledUp(_, time) => before.(scaleUp := time)
      case Deleted(time) => before.(delete := time)
      case Failed(time) => before.(fail := time)
      case _ => before
  }

  lemma TimesSnoc(start: int, trace: seq<Event>, e: Event)
    ensures
      var before := TimesIn(start, trace);
      TimesIn(start, trace + [e]) == match e
        case ScaledUp(_, time) => before.(scaleUp := time)
        case Deleted(time) => before.(delete := time)
        case Failed(time) => before.(fail := time)
        case _ => before
  {
    assert (trace + [e])[..|trace|] == trace;
  }

  lemma StepKeepsTimes(d: Delays, start: int, s: State, step: Step)
    requires ResultsExist(s) && Enabled(d, s, step) && s.times == TimesIn(start, s.trace)
    ensures Next(d, s, step).times == TimesIn(start, Next(d, s, step).trace)
  {
    match step
    case ScaleUpSucceeds => TimesSnoc(start, s.trace, ScaledUp(s.iteration, s.now));
    case TakeResults =>
      var e, f := TriedScaleDown(s.iteration, s.now), ResultsHandedOut(set n | n in s.results :: s.results[n]);
      TimesSnoc(start, s.trace, e);
      TimesSnoc(start, s.trace + [e], f);
      assert s.trace + [e] + [f] == s.trace + [e, f];
    case Conclude(NodesDeleted) => TimesSnoc(start, s.trace, Deleted(s.now));
    case Conclude(Error) => TimesSnoc(start, s.trace, Failed(s.now));
    case Conclude(StartDrain(_)) => TimesSnoc(start, s.trace, DrainStarted(|s.drains|));
    case EndDrain(id) => TimesSnoc(start, s.trace, DrainEnded(id));
    case RecordResult(id) => TimesSnoc(start, s.trace, ResultRecorded(id));
    case _ =>
  }

  /** The delays count from the last scale-up, bulk deletion and failure, or the start; drains have no part in it. */
  lemma {:induction false} DelaysCountFrom(d: Delays, start: int, steps: seq<Step>, states: seq<State>, k: nat)
    requires IsRun(d, start, steps, states) && k <= |steps|
    ensures states[k].times == TimesIn(start, states[k].trace)
  {
    if k > 0 {
      DelaysCountFrom(d, start, steps, states, k - 1);
      assert Follows(d, states[k - 1], steps[k - 1], states[k]);
      StepKeepsTimes(d, start, states[k - 1], steps[k - 1]);
    }
  }
}
