/**
 * Many iterations of the main loop in a row (main.go): what a removal says about the iterations
 * before it. The history of unneeded nodes runs through all of them.
 */
module Turns {
  import opened StaticAutoscaler
  import opened Wrappers
  import Drain
  import FirstSeen
  import SD = ScaleDown

  /**
   * One iteration: what it was given, what it did, and, if it came to an evaluation, the nodes found
   * unneeded then. `refused` and `hints` are what earlier simulations left behind for it.
   */
  datatype Turn = Turn(time: int, survey: Survey, demand: Demand, basis: Basis, deed: Deed,
                       evaluated: Option<map<string, SD.Unneeded>>, refused: map<string, int>, hints: Drain.Hints)
  {
    /** The nodes whose removal was begun. */
    function Removed(): seq<string> {
      if deed.DidTry? then SD.Removed(deed.status.result) else []
    }

    /** How long a node has to be unneeded to be removed. */
    function Span(settings: SD.Settings, n: string): int {
      SD.Span(basis.removal, settings, n)
    }

    /** The first thing the history says about the iteration; anything more is that nodes were forgotten. */
    function Opening(): seq<SD.Event> {
      if Forgets(survey) then [SD.RESET]
      else if evaluated.Some? then [FirstSeen.Observe(time, evaluated.value)]
      else []
    }

    /**
     * The evaluation took place if and only if the iteration came that far, and every node it found
     * unneeded was shown to be.
     */
    ghost predicate EvaluatedRightly(options: Options) {
      && (evaluated.Some? <==> ReachesScaleDown(options, survey, demand) && basis.pdbsListed)
      && (evaluated.Some? ==> forall n :: n in evaluated.value ==> ShownNow(n))
    }

    ghost predicate ShownNow(n: string) {
      SD.ShownUnneeded(basis.evaluation, SD.SuitableNodes(basis.evaluation, refused, time, basis.nodesToCheck), hints,
                       n)
    }

    /** The iteration takes the history from `before` to `after`. */
    ghost predicate Writes(settings: SD.Settings, before: seq<SD.Event>, after: seq<SD.Event>) {
      && SD.OnlyForgets(before + Opening(), after)
      && forall n :: n in Removed() ==>
           SD.LongUnneeded(before + Opening(), n, Span(settings, n), time) && n !in FirstSeen.After(after)
    }

    /** The iteration does nothing to the time for which `n` has been unneeded. */
    ghost predicate Keeps(n: string) {
      !Forgets(survey) && (evaluated.Some? ==> n in evaluated.value && ShownNow(n))
    }
  }

  /** `histories` are those before the first iteration and after each. */
  ghost predicate Chronicle(options: Options, settings: SD.Settings, turns: seq<Turn>, histories: seq<seq<SD.Event>>) {
    && |histories| == |turns| + 1 && histories[0] == []
    && forall i :: 0 <= i < |turns| ==>
        turns[i].EvaluatedRightly(options) && turns[i].Writes(settings, histories[i], histories[i + 1])
  }

  /**
   * From the evaluation in iteration `j` to iteration `i`, every evaluation found `n` unneeded and
   * showed it to be, the state of the cluster was known to be good, and `n` was not removed.
   */
  ghost predicate UnneededThroughout(turns: seq<Turn>, j: nat, i: nat, n: string)
    requires i < |turns|
  {
    && j <= i && turns[j].evaluated.Some?
    && forall k :: j <= k <= i ==> turns[k].Keeps(n) && (k < i ==> n !in turns[k].Removed())
  }

  lemma {:induction false} HistoriesGrow(options: Options, settings: SD.Settings, turns: seq<Turn>,
                                         histories: seq<seq<SD.Event>>, k: nat, i: nat)
    requires Chronicle(options, settings, turns, histories) && k < i <= |turns|
    ensures histories[k] + turns[k].Opening() <= histories[i]
  {
    var last := turns[i - 1];
    assert last.Writes(settings, histories[i - 1], histories[i]);
    if k < i - 1 {
      HistoriesGrow(options, settings, turns, histories, k, i - 1);
    }
  }

  /** An evaluation in the history was made in an iteration. */
  lemma {:induction false} WhoseEvaluation(options: Options, settings: SD.Settings, turns: seq<Turn>,
                                           histories: seq<seq<SD.Event>>, i: nat, p: nat)
    returns (j: nat)
    requires Chronicle(options, settings, turns, histories) && i <= |turns|
    requires p < |histories[i]| && histories[i][p].Observe?
    ensures j < i && p == |histories[j]| && turns[j].evaluated.Some? && !Forgets(turns[j].survey)
    ensures histories[i][p].time == turns[j].time
  {
    var last := turns[i - 1];
    assert last.Writes(settings, histories[i - 1], histories[i]);
    if p < |histories[i - 1]| {
      j := WhoseEvaluation(options, settings, turns, histories, i - 1, p);
    } else {
      j := i - 1;
    }
  }

  /** A node that an iteration removed has no stretch left that began before. */
  lemma RemovedStartsAnew(options: Options, settings: SD.Settings, turns: seq<Turn>, histories: seq<seq<SD.Event>>,
                          k: nat, events: seq<SD.Event>, n: string, start: nat)
    requires Chronicle(options, settings, turns, histories) && k < |turns| && histories[k + 1] <= events
    requires FirstSeen.SeenSince(events, n, SD.Unneeded, start) && start < |histories[k + 1]|
    ensures n !in turns[k].Removed()
  {
    assert turns[k].Writes(settings, histories[k], histories[k + 1]);
    if n in turns[k].Removed() {
      var h := histories[k + 1];
      FirstSeen.NoEntryNoStreak(h, n, SD.Unneeded);
      forall i | start <= i < |h| ensures FirstSeen.Confirms(h[i], n, SD.Unneeded) {
        assert FirstSeen.Confirms(events[i], n, SD.Unneeded);
      }
      assert FirstSeen.SeenSince(h, n, SD.Unneeded, start);
    }
  }

  /** An iteration within a stretch keeps it. */
  lemma StretchIsKept(turn: Turn, options: Options, before: seq<SD.Event>, events: seq<SD.Event>, n: string, start: nat)
    requires turn.EvaluatedRightly(options) && before + turn.Opening() <= events
    requires FirstSeen.SeenSince(events, n, SD.Unneeded, start) && start <= |before|
    ensures turn.Keeps(n)
  {
    if turn.Opening() != [] {
      assert events[|before|] == turn.Opening()[0];
      assert FirstSeen.Confirms(events[|before|], n, SD.Unneeded);
    }
  }

  /** A stretch that began with iteration `j` covers what iteration `k` did first. */
  lemma KeptThroughout(options: Options, settings: SD.Settings, turns: seq<Turn>, histories: seq<seq<SD.Event>>, j: nat,
                       k: nat, i: nat, n: string)
    requires Chronicle(options, settings, turns, histories) && j <= k <= i < |turns| && turns[j].Opening() != []
    requires FirstSeen.SeenSince(histories[i] + turns[i].Opening(), n, SD.Unneeded, |histories[j]|)
    ensures turns[k].Keeps(n)
  {
    assert turns[k].EvaluatedRightly(options);
    if j < k {
      HistoriesGrow(options, settings, turns, histories, j, k);
    }
    if k < i {
      HistoriesGrow(options, settings, turns, histories, k, i);
    }
    StretchIsKept(turns[k], options, histories[k], histories[i] + turns[i].Opening(), n, |histories[j]|);
  }

  /** And iteration `k` did not remove the node. */
  lemma NotRemovedThroughout(options: Options, settings: SD.Settings, turns: seq<Turn>, histories: seq<seq<SD.Event>>,
                             j: nat, k: nat, i: nat, n: string)
    requires Chronicle(options, settings, turns, histories) && j <= k < i < |turns| && turns[j].Opening() != []
    requires FirstSeen.SeenSince(histories[i] + turns[i].Opening(), n, SD.Unneeded, |histories[j]|)
    ensures n !in turns[k].Removed()
  {
    HistoriesGrow(options, settings, turns, histories, j, k + 1);
    if k + 1 < i {
      HistoriesGrow(options, settings, turns, histories, k + 1, i);
    }
    RemovedStartsAnew(options, settings, turns, histories, k, histories[i] + turns[i].Opening(), n, |histories[j]|);
  }

  /**
   * A node whose removal is begun in an iteration was unneeded in a row of iterations up to this one,
   * and the first of them was longer ago than the time for which the node has to be unneeded.
   */
  lemma RemovedWasUnneeded(options: Options, settings: SD.Settings, turns: seq<Turn>, histories: seq<seq<SD.Event>>,
                           i: nat, n: string)
    returns (j: nat)
    requires Chronicle(options, settings, turns, histories) && i < |turns| && n in turns[i].Removed()
    ensures UnneededThroughout(turns, j, i, n)
    ensures turns[j].time + turns[i].Span(settings, n) < turns[i].time
  {
    var events := histories[i] + turns[i].Opening();
    assert turns[i].Writes(settings, histories[i], histories[i + 1]);
    var start: nat :| FirstSeen.SeenSince(events, n, SD.Unneeded, start)
      && events[start].time + turns[i].Span(settings, n) < turns[i].time;
    if start < |histories[i]| {
      j := WhoseEvaluation(options, settings, turns, histories, i, start);
    } else {
      j := i;
    }
    forall k | j <= k <= i ensures turns[k].Keeps(n) && (k < i ==> n !in turns[k].Removed()) {
      KeptThroughout(options, settings, turns, histories, j, k, i, n);
      if k < i {
        NotRemovedThroughout(options, settings, turns, histories, j, k, i, n);
      }
    }
  }
}
