/**
 * Drains run beside the iterations of the main loop, but they never look inside one: every run of
 * the protocol can be rearranged so that drains end and record their results between iterations.
 */
module Interleaving {
  import opened LoopProtocol
  import opened Wrappers

  /** Where `steps` lead from `s`, if they can be taken one after the other. */
  ghost function After(d: Delays, s: State, steps: seq<Step>): Option<State> {
    if steps == [] then Some(s)
    else
      var u, last := After(d, s, steps[..|steps| - 1]), steps[|steps| - 1];
      if u.Some? && Enabled(d, u.value, last) && ResultsExist(u.value) then Some(Next(d, u.value, last)) else None
  }

  ghost predicate Goes(d: Delays, s: State, steps: seq<Step>, t: State) {
    After(d, s, steps) == Some(t)
  }

  lemma GoesOn(d: Delays, s: State, steps: seq<Step>, t: State, step: Step, u: State)
    requires Goes(d, s, steps, t) && Follows(d, t, step, u)
    ensures Goes(d, s, steps + [step], u)
  {
    assert (steps + [step])[..|steps|] == steps;
  }

  lemma GoesBack(d: Delays, s: State, steps: seq<Step>, step: Step, u: State) returns (t: State)
    requires Goes(d, s, steps + [step], u)
    ensures Goes(d, s, steps, t) && Follows(d, t, step, u)
  {
    assert (steps + [step])[..|steps|] == steps;
    t := After(d, s, steps).value;
  }

  lemma {:induction false} GoesFurther(d: Delays, s: State, a: seq<Step>, t: State, b: seq<Step>, u: State)
    requires Goes(d, s, a, t) && Goes(d, t, b, u)
    ensures Goes(d, s, a + b, u)
    decreases |b|
  {
    if b == [] {
      assert a + b == a;
    } else {
      var front, last := b[..|b| - 1], b[|b| - 1];
      var v := After(d, t, front).value;
      GoesFurther(d, s, a, t, front, v);
      GoesOn(d, s, a + front, v, last, u);
      assert a + b == a + front + [last];
    }
  }

  /** The steps that can be taken from the initial state are those of the runs. */
  lemma {:induction false} GoesIsARun(d: Delays, start: int, steps: seq<Step>, t: State) returns (states: seq<State>)
    requires Goes(d, Initially(start), steps, t)
    ensures IsRun(d, start, steps, states) && states[|steps|] == t
  {
    if steps == [] {
      states := [t];
    } else {
      var front, last := steps[..|steps| - 1], steps[|steps| - 1];
      var u := After(d, Initially(start), front).value;
      var before := GoesIsARun(d, start, front, u);
      states := before + [t];
      forall i | 0 <= i < |steps| ensures Follows(d, states[i], steps[i], states[i + 1]) {
        if i < |front| {
          assert Follows(d, before[i], front[i], before[i + 1]);
        }
      }
    }
  }

  lemma {:induction false} RunGoes(d: Delays, start: int, steps: seq<Step>, states: seq<State>, k: nat)
    requires IsRun(d, start, steps, states) && k <= |steps|
    ensures Goes(d, Initially(start), steps[..k], states[k])
  {
    if k > 0 {
      RunGoes(d, start, steps, states, k - 1);
      assert Follows(d, states[k - 1], steps[k - 1], states[k]);
      assert steps[..k][..k - 1] == steps[..k - 1];
    }
  }

  // ----- two steps in the other order

  predicate OfDrain(step: Step) {
    step.EndDrain? || step.RecordResult?
  }

  /** The same but for the order of the events. */
  ghost predicate Alike(s: State, t: State) {
    t == s.(trace := t.trace) && multiset(t.trace) == multiset(s.trace)
  }

  ghost predicate Sound(s: State) {
    OneDrain(s) && ResultsMatch(s)
  }

  lemma StepKeepsSound(d: Delays, s: State, step: Step, t: State)
    requires Sound(s) && Follows(d, s, step, t)
    ensures Sound(t)
  {
    StepKeepsOneDrain(d, s, step);
    StepKeepsResults(d, s, step);
  }

  lemma {:induction false} RunsAreSound(d: Delays, s: State, steps: seq<Step>, t: State)
    requires Sound(s) && Goes(d, s, steps, t)
    ensures Sound(t)
  {
    if steps != [] {
      var u := After(d, s, steps[..|steps| - 1]).value;
      RunsAreSound(d, s, steps[..|steps| - 1], u);
      StepKeepsSound(d, u, steps[|steps| - 1], t);
    }
  }

  /** What a drain does inside an iteration that has not taken the results yet, it could have done before it. */
  lemma DrainFirst(d: Delays, s: State, main: Step, t: State, e: Step, u: State) returns (v: State)
    requires (main.Begin? || main.Admit?) && OfDrain(e) && Sound(s)
    requires Follows(d, s, main, t) && Follows(d, t, e, u)
    ensures Follows(d, s, e, v) && Follows(d, v, main, u)
  {
    v := Next(d, s, e);
    StepKeepsResults(d, s, e);
  }

  /** While a scale-down removes nodes, drains can only record results. */
  lemma OnlyRecords(d: Delays, s: State, e: Step)
    requires OfDrain(e) && OneDrain(s) && s.phase == Removing && Enabled(d, s, e)
    ensures e.RecordResult?
  {
  }

  /** What a drain does after the results were taken, it can as well do after the iteration. */
  lemma DrainLast(d: Delays, s: State, e: Step, t: State, outcome: Outcome, u: State) returns (v: State, w: State)
    requires OfDrain(e) && Sound(s) && s.phase == Removing
    requires Follows(d, s, e, t) && Follows(d, t, Conclude(outcome), u)
    ensures Follows(d, s, Conclude(outcome), v) && Follows(d, v, e, w) && Alike(u, w)
  {
    OnlyRecords(d, s, e);
    v := Next(d, s, Conclude(outcome));
    StepKeepsResults(d, s, Conclude(outcome));
    w := Next(d, v, e);
    if outcome.StartDrain? {
      RecordBeforeMore(s.drains, s.results, e.id, [Drain(outcome.node, Draining)]);
    }
    SwapMultiset(s.trace, Emitted(s, e), Emitted(t, Conclude(outcome)));
  }

  lemma RecordBeforeMore(drains: seq<Drain>, results: map<string, nat>, id: nat, more: seq<Drain>)
    requires id < |drains| && forall n :: n in results ==> results[n] < |drains|
    ensures Record(drains + more, results, id) == Record(drains, results, id) + more
  {
  }

  lemma SwapMultiset(trace: seq<Event>, a: seq<Event>, b: seq<Event>)
    ensures multiset(trace + a + b) == multiset(trace + b + a)
  {
  }

  /** A drain cannot tell states that are alike from each other. */
  lemma AlikeGoesOn(d: Delays, s: State, t: State, step: Step, u: State) returns (v: State)
    requires Alike(s, t) && Follows(d, s, step, u)
    ensures Follows(d, t, step, v) && Alike(u, v)
  {
    v := Next(d, t, step);
    assert u.trace == s.trace + Emitted(s, step);
    assert v.trace == t.trace + Emitted(s, step);
  }

  predicate AllOfDrain(steps: seq<Step>) {
    forall i :: 0 <= i < |steps| ==> OfDrain(steps[i])
  }

  lemma {:induction false} DrainsKeepPhase(d: Delays, s: State, drains: seq<Step>, t: State)
    requires AllOfDrain(drains) && Goes(d, s, drains, t)
    ensures t.phase == s.phase
  {
    if drains != [] {
      var u := After(d, s, drains[..|drains| - 1]).value;
      DrainsKeepPhase(d, s, drains[..|drains| - 1], u);
      assert OfDrain(drains[|drains| - 1]);
    }
  }

  lemma {:induction false} DrainsLast(d: Delays, s: State, drains: seq<Step>, t: State, outcome: Outcome, u: State)
    returns (v: State, w: State)
    requires AllOfDrain(drains) && Sound(s) && s.phase == Removing
    requires Goes(d, s, drains, t) && Follows(d, t, Conclude(outcome), u)
    ensures Follows(d, s, Conclude(outcome), v) && Goes(d, v, drains, w) && Alike(u, w)
    decreases |drains|
  {
    if drains == [] {
      v, w := u, u;
    } else {
      var front, e := drains[..|drains| - 1], drains[|drains| - 1];
      var r := After(d, s, front).value;
      RunsAreSound(d, s, front, r);
      DrainsKeepPhase(d, s, front, r);
      var p, q := DrainLast(d, r, e, t, outcome, u);
      var w';
      v, w' := DrainsLast(d, s, front, r, outcome, p);
      w := AlikeGoesOn(d, p, w', e, q);
    }
  }

  // ----- whole runs

  /** The iteration ends without trying to scale down. */
  predicate EndsEarly(step: Step) {
    step.Leave? || step.Blocked? || step.ScaleUpSucceeds?
  }

  /** Iterations follow each other without a drain step inside any of them. */
  predicate Serial(steps: seq<Step>) {
    var n := |steps|;
    || n == 0
    || (OfDrain(steps[n - 1]) && Serial(steps[..n - 1]))
    || (n >= 2 && steps[n - 2].Begin? && EndsEarly(steps[n - 1]) && Serial(steps[..n - 2]))
    || (n >= 4 && steps[n - 4].Begin? && steps[n - 3].Admit? && steps[n - 2].TakeResults? && steps[n - 1].Conclude?
        && Serial(steps[..n - 4]))
  }

  /** The steps of the main loop, or those of the drains, in order. */
  function Only(steps: seq<Step>, ofDrain: bool): seq<Step> {
    if steps == [] then []
    else
      var last := steps[|steps| - 1];
      Only(steps[..|steps| - 1], ofDrain) + (if OfDrain(last) == ofDrain then [last] else [])
  }

  lemma OnlySnoc(steps: seq<Step>, step: Step, ofDrain: bool)
    ensures Only(steps + [step], ofDrain) == Only(steps, ofDrain) + (if OfDrain(step) == ofDrain then [step] else [])
  {
    assert (steps + [step])[..|steps|] == steps;
  }

  lemma {:induction false} OnlyConcat(a: seq<Step>, b: seq<Step>, ofDrain: bool)
    ensures Only(a + b, ofDrain) == Only(a, ofDrain) + Only(b, ofDrain)
    decreases |b|
  {
    if b == [] {
      assert a + b == a;
    } else {
      assert (a + b)[..|a + b| - 1] == a + b[..|b| - 1];
      OnlyConcat(a, b[..|b| - 1], ofDrain);
    }
  }

  /** The main loop takes the same steps in both, and the drains do. */
  predicate SameSteps(a: seq<Step>, b: seq<Step>) {
    Only(a, true) == Only(b, true) && Only(a, false) == Only(b, false)
  }

  lemma SameSnoc(a: seq<Step>, b: seq<Step>, step: Step)
    requires SameSteps(a, b)
    ensures SameSteps(a + [step], b + [step])
  {
    OnlySnoc(a, step, true);
    OnlySnoc(a, step, false);
    OnlySnoc(b, step, true);
    OnlySnoc(b, step, false);
  }

  /** A step may be put before steps of the other kind. */
  lemma SameBefore(a: seq<Step>, others: seq<Step>, step: Step, b: seq<Step>)
    requires SameSteps(a + others, b)
    requires forall i :: 0 <= i < |others| ==> OfDrain(others[i]) != OfDrain(step)
    ensures SameSteps(a + [step] + others, b + [step])
  {
    OnlyBefore(a, others, step, true);
    OnlyBefore(a, others, step, false);
    OnlySnoc(b, step, true);
    OnlySnoc(b, step, false);
  }

  lemma OnlyBefore(a: seq<Step>, others: seq<Step>, step: Step, ofDrain: bool)
    requires forall i :: 0 <= i < |others| ==> OfDrain(others[i]) != OfDrain(step)
    ensures Only(a + [step] + others, ofDrain) ==
            Only(a + others, ofDrain) + (if OfDrain(step) == ofDrain then [step] else [])
  {
    OnlyOneKind(others, !OfDrain(step));
    OnlyConcat(a, others, ofDrain);
    OnlyConcat(a + [step], others, ofDrain);
    OnlySnoc(a, step, ofDrain);
  }

  lemma {:induction false} OnlyOneKind(steps: seq<Step>, ofDrain: bool)
    requires forall i :: 0 <= i < |steps| ==> OfDrain(steps[i]) == ofDrain
    ensures Only(steps, ofDrain) == steps && Only(steps, !ofDrain) == []
  {
    if steps != [] {
      OnlyOneKind(steps[..|steps| - 1], ofDrain);
    }
  }

  /** Where an iteration is that has taken these steps. */
  predicate OpenIn(open: seq<Step>, phase: Phase) {
    match phase
    case Resting => open == []
    case Working => |open| == 1 && open[0].Begin?
    case Admitted => |open| == 2 && open[0].Begin? && open[1].Admit?
    case Removing => |open| == 3 && open[0].Begin? && open[1].Admit? && open[2].TakeResults?
  }

  /**
   * A run rearranged as far as it got: complete iterations with drain steps between them, the steps
   * of the present iteration, and what drains did in it after the results were taken.
   */
  datatype Sorted = Sorted(done: seq<Step>, rest: State, open: seq<Step>, inside: State, drains: seq<Step>, last: State)

  ghost predicate Sorts(d: Delays, s: State, steps: seq<Step>, t: State, r: Sorted) {
    && Serial(r.done) && Goes(d, s, r.done, r.rest) && r.rest.phase == Resting
    && OpenIn(r.open, t.phase) && Goes(d, r.rest, r.open, r.inside)
    && AllOfDrain(r.drains) && (t.phase != Removing ==> r.drains == []) && Goes(d, r.inside, r.drains, r.last)
    && Alike(t, r.last)
    && SameSteps(r.done + r.open + r.drains, steps)
  }

  lemma OpenSame(done: seq<Step>, open: seq<Step>, step: Step, steps: seq<Step>)
    requires SameSteps(done + open + [], steps)
    ensures SameSteps(done + (open + [step]) + [], steps + [step])
  {
    SameSnoc(done + open + [], steps, step);
    assert done + (open + [step]) + [] == done + open + [] + [step];
  }

  lemma KeptSame(done: seq<Step>, open: seq<Step>, drains: seq<Step>, e: Step, steps: seq<Step>)
    requires SameSteps(done + open + drains, steps)
    ensures SameSteps(done + open + (drains + [e]), steps + [e])
  {
    SameSnoc(done + open + drains, steps, e);
    assert done + open + (drains + [e]) == done + open + drains + [e];
  }

  lemma MovedSame(done: seq<Step>, open: seq<Step>, phase: Phase, e: Step, steps: seq<Step>)
    requires SameSteps(done + open + [], steps) && OpenIn(open, phase) && OfDrain(e)
    ensures SameSteps(done + [e] + open + [], steps + [e])
  {
    assert done + open + [] == done + open;
    SameBefore(done, open, e, steps);
    assert done + [e] + open + [] == done + [e] + open;
  }

  lemma ClosedSame(done: seq<Step>, open: seq<Step>, drains: seq<Step>, step: Step, steps: seq<Step>)
    requires SameSteps(done + open + drains, steps) && AllOfDrain(drains) && !OfDrain(step)
    ensures SameSteps(done + open + [step] + drains + [] + [], steps + [step])
  {
    SameBefore(done + open, drains, step, steps);
    assert done + open + [step] + drains + [] + [] == done + open + [step] + drains;
  }

  lemma ClosedIsSerial(done: seq<Step>, open: seq<Step>, phase: Phase, step: Step)
    requires Serial(done) && OpenIn(open, phase)
    requires if step.Conclude? then phase == Removing else phase == Working && EndsEarly(step)
    ensures Serial(done + open + [step])
  {
    assert (done + open + [step])[..|done|] == done;
  }

  /** Drain steps after complete iterations leave them complete. */
  lemma {:induction false} SerialGoesOn(done: seq<Step>, drains: seq<Step>)
    requires Serial(done) && AllOfDrain(drains)
    ensures Serial(done + drains)
    decreases |drains|
  {
    if drains == [] {
      assert done + drains == done;
    } else {
      var n := |drains| - 1;
      assert (done + drains)[..|done + drains| - 1] == done + drains[..n];
      assert OfDrain(drains[n]);
      SerialGoesOn(done, drains[..n]);
    }
  }

  /** The main loop goes on without ending the iteration. */
  lemma OpenFurther(d: Delays, s: State, steps: seq<Step>, t: State, r: Sorted, step: Step, u: State)
    returns (r': Sorted)
    requires Sorts(d, s, steps, t, r) && Follows(d, t, step, u)
    requires step.Begin? || step.Admit? || step.TakeResults?
    ensures Sorts(d, s, steps + [step], u, r')
  {
    var v := AlikeGoesOn(d, t, r.last, step, u);
    GoesOn(d, r.rest, r.open, r.inside, step, v);
    OpenSame(r.done, r.open, step, steps);
    r' := r.(open := r.open + [step], inside := v, last := v);
  }

  lemma ClosedEarly(d: Delays, s: State, r: Sorted, t: State, step: Step, u: State) returns (v: State)
    requires Goes(d, s, r.done, r.rest) && Goes(d, r.rest, r.open, r.inside)
    requires Alike(t, r.inside) && Follows(d, t, step, u)
    ensures Goes(d, s, r.done + r.open + [step], v) && Alike(u, v)
  {
    GoesFurther(d, s, r.done, r.rest, r.open, r.inside);
    v := AlikeExtends(d, s, r.done + r.open, r.inside, t, step, u);
  }

  /** An iteration ends that took no results. */
  lemma CloseEarly(d: Delays, s: State, steps: seq<Step>, t: State, r: Sorted, step: Step, u: State)
    returns (r': Sorted)
    requires Sorts(d, s, steps, t, r) && Follows(d, t, step, u)
    requires EndsEarly(step)
    ensures Sorts(d, s, steps + [step], u, r')
  {
    var v := ClosedEarly(d, s, r, t, step, u);
    ClosedIsSerial(r.done, r.open, t.phase, step);
    ClosedSame(r.done, r.open, [], step, steps);
    var done := r.done + r.open + [step];
    assert done + [] == done;
    r' := Sorted(done, v, [], v, [], v);
  }

  /** An iteration ends that took the results: what drains did since then is put after it. */
  lemma CloseLate(d: Delays, s: State, steps: seq<Step>, t: State, r: Sorted, outcome: Outcome, u: State)
    returns (r': Sorted)
    requires Sound(s) && Sorts(d, s, steps, t, r) && Follows(d, t, Conclude(outcome), u)
    ensures Sorts(d, s, steps + [Conclude(outcome)], u, r')
  {
    var step := Conclude(outcome);
    var v := AlikeGoesOn(d, t, r.last, step, u);
    var done, q := Closed(d, s, r, t.phase, outcome, v);
    ClosedIsSerial(r.done, r.open, t.phase, step);
    SerialGoesOn(done, r.drains);
    ClosedSame(r.done, r.open, r.drains, step, steps);
    r' := Sorted(done + r.drains, q, [], q, [], q);
  }

  lemma Closed(d: Delays, s: State, r: Sorted, phase: Phase, outcome: Outcome, v: State)
    returns (done: seq<Step>, q: State)
    requires Sound(s) && Goes(d, s, r.done, r.rest) && Goes(d, r.rest, r.open, r.inside)
    requires AllOfDrain(r.drains) && Goes(d, r.inside, r.drains, r.last) && Follows(d, r.last, Conclude(outcome), v)
    ensures done == r.done + r.open + [Conclude(outcome)] && Goes(d, s, done + r.drains, q)
    ensures Alike(v, q) && q.phase == Resting
  {
    GoesFurther(d, s, r.done, r.rest, r.open, r.inside);
    RunsAreSound(d, s, r.done + r.open, r.inside);
    DrainsKeepPhase(d, r.inside, r.drains, r.last);
    var p;
    p, q := DrainsLast(d, r.inside, r.drains, r.last, outcome, v);
    GoesOn(d, s, r.done + r.open, r.inside, Conclude(outcome), p);
    done := r.done + r.open + [Conclude(outcome)];
    GoesFurther(d, s, done, p, r.drains, q);
  }

  /** A step taken from a state can be taken at the end of steps to one that is like it. */
  lemma AlikeExtends(d: Delays, s: State, steps: seq<Step>, last: State, t: State, step: Step, u: State)
    returns (v: State)
    requires Goes(d, s, steps, last) && Alike(t, last) && Follows(d, t, step, u)
    ensures Goes(d, s, steps + [step], v) && Follows(d, last, step, v) && Alike(u, v)
  {
    v := AlikeGoesOn(d, t, last, step, u);
    GoesOn(d, s, steps, last, step, v);
  }

  /** A drain step after the results were taken is kept until the end of the iteration. */
  lemma DrainKept(d: Delays, s: State, steps: seq<Step>, t: State, r: Sorted, e: Step, u: State) returns (r': Sorted)
    requires Sorts(d, s, steps, t, r) && Follows(d, t, e, u) && OfDrain(e) && t.phase == Removing
    ensures Sorts(d, s, steps + [e], u, r')
  {
    var v := AlikeExtends(d, r.inside, r.drains, r.last, t, e, u);
    var drains, more := r.drains + [e], steps + [e];
    KeptSame(r.done, r.open, r.drains, e, steps);
    r' := Sorted(r.done, r.rest, r.open, r.inside, drains, v);
    assert SameSteps(r'.done + r'.open + r'.drains, more);
  }

  /** An earlier one is put before the iteration. */
  lemma DrainMoved(d: Delays, s: State, steps: seq<Step>, t: State, r: Sorted, e: Step, u: State) returns (r': Sorted)
    requires Sound(s) && Sorts(d, s, steps, t, r) && Follows(d, t, e, u) && OfDrain(e) && t.phase != Removing
    ensures Sorts(d, s, steps + [e], u, r')
  {
    var v := AlikeGoesOn(d, t, r.last, e, u);
    RunsAreSound(d, s, r.done, r.rest);
    var x := DrainBeforeOpen(d, r.rest, r.open, r.inside, t.phase, e, v);
    GoesOn(d, s, r.done, r.rest, e, x);
    SerialGoesOn(r.done, [e]);
    MovedSame(r.done, r.open, t.phase, e, steps);
    r' := Sorted(r.done + [e], x, r.open, v, [], v);
  }

  lemma DrainBeforeOpen(d: Delays, s: State, open: seq<Step>, t: State, phase: Phase, e: Step, u: State)
    returns (v: State)
    requires Sound(s) && OpenIn(open, phase) && phase != Removing && Goes(d, s, open, t) && OfDrain(e)
             && Follows(d, t, e, u)
    ensures Follows(d, s, e, v) && Goes(d, v, open, u)
  {
    if open == [] {
      v := u;
    } else {
      var n := |open| - 1;
      var r := After(d, s, open[..n]).value;
      RunsAreSound(d, s, open[..n], r);
      var q := DrainFirst(d, r, open[n], t, e, u);
      assert OpenIn(open[..n], if n == 0 then Resting else Working);
      v := DrainBeforeOpen(d, s, open[..n], r, if n == 0 then Resting else Working, e, q);
      assert open == open[..n] + [open[n]];
      GoesOn(d, v, open[..n], q, open[n], u);
    }
  }

  lemma SortsStep(d: Delays, s: State, steps: seq<Step>, t: State, r: Sorted, step: Step, u: State) returns (r': Sorted)
    requires Sound(s) && Sorts(d, s, steps, t, r) && Follows(d, t, step, u)
    ensures Sorts(d, s, steps + [step], u, r')
  {
    match step
    case Begin(_) => r' := OpenFurther(d, s, steps, t, r, step, u);
    case Admit => r' := OpenFurther(d, s, steps, t, r, step, u);
    case TakeResults => r' := OpenFurther(d, s, steps, t, r, step, u);
    case Leave => r' := CloseEarly(d, s, steps, t, r, step, u);
    case Blocked => r' := CloseEarly(d, s, steps, t, r, step, u);
    case ScaleUpSucceeds => r' := CloseEarly(d, s, steps, t, r, step, u);
    case Conclude(outcome) => r' := CloseLate(d, s, steps, t, r, outcome, u);
    case _ =>
      if t.phase == Removing {
        r' := DrainKept(d, s, steps, t, r, step, u);
      } else {
        r' := DrainMoved(d, s, steps, t, r, step, u);
      }
  }

  lemma NothingSorted(d: Delays, s: State) returns (r: Sorted)
    requires s.phase == Resting
    ensures Sorts(d, s, [], s, r)
  {
    r := Sorted([], s, [], s, [], s);
    assert r.done + r.open + r.drains == [];
  }

  lemma SortsLast(d: Delays, s: State, steps: seq<Step>, t: State, r: Sorted, u: State) returns (r': Sorted)
    requires steps != [] && Sound(s) && Goes(d, s, steps[..|steps| - 1], t)
    requires Sorts(d, s, steps[..|steps| - 1], t, r) && Follows(d, t, steps[|steps| - 1], u)
    ensures Sorts(d, s, steps, u, r')
  {
    assert steps == steps[..|steps| - 1] + [steps[|steps| - 1]];
    r' := SortsStep(d, s, steps[..|steps| - 1], t, r, steps[|steps| - 1], u);
  }

  lemma {:induction false} RunSorts(d: Delays, s: State, steps: seq<Step>, t: State) returns (r: Sorted)
    requires Sound(s) && s.phase == Resting && Goes(d, s, steps, t)
    ensures Sorts(d, s, steps, t, r)
  {
    if steps == [] {
      r := NothingSorted(d, s);
    } else {
      var u := After(d, s, steps[..|steps| - 1]).value;
      r := RunSorts(d, s, steps[..|steps| - 1], u);
      r := SortsLast(d, s, steps, u, r, t);
    }
  }

  /**
   * Whatever drains do while iterations are under way, they could have done between iterations:
   * every run of complete iterations has a serial one with the same steps of the main loop and the
   * same steps of the drains, each in the same order, and the same end, with the same events in it.
   */
  lemma RunsAreSerializable(d: Delays, start: int, steps: seq<Step>, states: seq<State>)
    returns (serial: seq<Step>, states': seq<State>)
    requires IsRun(d, start, steps, states) && states[|steps|].phase == Resting
    ensures Serial(serial) && IsRun(d, start, serial, states')
    ensures SameSteps(serial, steps)
    ensures Alike(states[|steps|], states'[|serial|])
  {
    RunGoes(d, start, steps, states, |steps|);
    assert steps[..|steps|] == steps;
    var r := RunSorts(d, Initially(start), steps, states[|steps|]);
    assert r.done + r.open + r.drains == r.done;
    serial := r.done;
    states' := GoesIsARun(d, start, serial, r.last);
  }

  // ----- iterations with no drain step in between

  lemma EarlyEndIsARun(d: Delays, s: State, now: int, step: Step)
    requires Enabled(d, s, Begin(now)) && ResultsExist(s)
    requires EndsEarly(step) && Enabled(d, Next(d, s, Begin(now)), step)
    ensures Goes(d, s, [Begin(now), step], Next(d, Next(d, s, Begin(now)), step))
  {
    var s1 := Next(d, s, Begin(now));
    GoesOn(d, s, [], s, Begin(now), s1);
    assert [] + [Begin(now)] == [Begin(now)];
    GoesOn(d, s, [Begin(now)], s1, step, Next(d, s1, step));
    assert [Begin(now)] + [step] == [Begin(now), step];
  }

  /** The state after an iteration has passed the gate and taken the results. */
  function Taken(s: State, now: int): State {
    s.(now := now, iteration := s.iteration + 1, phase := Removing, results := map[], drains := HandOut(s.drains),
       trace := s.trace
         + [TriedScaleDown(s.iteration + 1, now), ResultsHandedOut(set n | n in s.results :: s.results[n])])
  }

  lemma TakingIsARun(d: Delays, s: State, now: int)
    requires Enabled(d, s, Begin(now)) && ResultsMatch(s) && GateOpen(d, s.(now := now))
    ensures Goes(d, s, [Begin(now), Admit, TakeResults], Taken(s, now))
  {
    var s1 := Next(d, s, Begin(now));
    var s2 := Next(d, s1, Admit);
    GoesOn(d, s, [], s, Begin(now), s1);
    assert [] + [Begin(now)] == [Begin(now)];
    GoesOn(d, s, [Begin(now)], s1, Admit, s2);
    assert [Begin(now)] + [Admit] == [Begin(now), Admit];
    GoesOn(d, s, [Begin(now), Admit], s2, TakeResults, Next(d, s2, TakeResults));
    assert [Begin(now), Admit] + [TakeResults] == [Begin(now), Admit, TakeResults];
  }

  lemma TryIsARun(d: Delays, s: State, now: int, outcome: Outcome)
    requires Enabled(d, s, Begin(now)) && ResultsMatch(s) && GateOpen(d, s.(now := now))
    ensures Goes(d, s, [Begin(now), Admit, TakeResults, Conclude(outcome)], Next(d, Taken(s, now), Conclude(outcome)))
  {
    TakingIsARun(d, s, now);
    GoesOn(d, s, [Begin(now), Admit, TakeResults], Taken(s, now), Conclude(outcome),
           Next(d, Taken(s, now), Conclude(outcome)));
    assert [Begin(now), Admit, TakeResults] + [Conclude(outcome)] ==
           [Begin(now), Admit, TakeResults, Conclude(outcome)];
  }
}
