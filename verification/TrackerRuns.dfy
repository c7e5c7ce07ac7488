/**
 * How closely the bounded tracker follows the relation it approximates, over whole runs.
 *
 * `live` is the exact relation: the latest time of every registered pair (user, target) that was
 * neither expired nor lost one of its ends. The two `lost...` sets remember the nodes that were
 * unregistered while their own record was saturated, so that mentions of them elsewhere may be stale.
 */
module TrackerRuns {
  import opened Collections
  import opened Wrappers
  import opened Tracker

  type Relation = map<(string, string), int>

  datatype State = State(usage: Usage, live: Relation, lostTargets: set<string>, lostUsers: set<string>)

  datatype Op =
    | Register(a: string, b: string, timestamp: int)
    | Unregister(node: string)
    | CleanUp(cutoff: int)

  const INITIAL := State(map[], map[], {}, {})

  function Forgotten(r: Relation, node: string): Relation {
    map p | p in r && p.0 != node && p.1 != node :: r[p]
  }

  /** One call on the tracker; RemoveNodeFromTracker changes the tracker exactly as Unregister does. */
  function Step(s: State, op: Op): State {
    match op
    case Register(a, b, timestamp) =>
      s.(usage := AfterRegister(s.usage, a, b, timestamp), live := s.live[(a, b) := timestamp])
    case Unregister(node) =>
      s.(usage := AfterUnregister(s.usage, node), live := Forgotten(s.live, node),
         lostTargets := if RecordOf(s.usage, node).usedByTooMany then s.lostTargets + {node} else s.lostTargets,
         lostUsers := if RecordOf(s.usage, node).usingTooMany then s.lostUsers + {node} else s.lostUsers)
    case CleanUp(cutoff) =>
      s.(usage := AfterCleanUp(s.usage, cutoff), live := NotBefore(s.live, cutoff))
  }

  function Run(ops: seq<Op>): State {
    if ops == [] then INITIAL else Step(Run(ops[..|ops| - 1]), ops[|ops| - 1])
  }

  lemma RunSnoc(ops: seq<Op>, op: Op)
    ensures Run(ops + [op]) == Step(Run(ops), op)
  {
    assert (ops + [op])[..|ops|] == ops;
  }

  // ----- the invariant, one (user, target) pair at a time

  /** A live pair is recorded on both sides with its time, except where a side is saturated. */
  predicate Covered(s: State, a: string, b: string) {
    (a, b) in s.live ==>
      && a in s.usage && b in s.usage
      && (s.usage[a].usingTooMany || Get(s.usage[a].using, b) == Some(s.live[(a, b)]))
      && (s.usage[b].usedByTooMany || Get(s.usage[b].usedBy, a) == Some(s.live[(a, b)]))
  }

  /** What an unsaturated user records about a target is exact, unless the target was lost. */
  predicate UsingExact(s: State, a: string, b: string) {
    RecordOf(s.usage, a).usingTooMany || b in s.lostTargets
    || Get(RecordOf(s.usage, a).using, b) == Get(s.live, (a, b))
  }

  /** What an unsaturated target records about a user is exact, unless the user was lost. */
  predicate UsedByExact(s: State, a: string, b: string) {
    RecordOf(s.usage, b).usedByTooMany || a in s.lostUsers
    || Get(RecordOf(s.usage, b).usedBy, a) == Get(s.live, (a, b))
  }

  predicate Small(r: Record) {
    |r.using| <= MAX_USAGE_RECORDED && |r.usedBy| <= MAX_USAGE_RECORDED
  }

  ghost predicate Invariant(s: State) {
    && (forall a, b :: Covered(s, a, b))
    && (forall a, b :: UsingExact(s, a, b))
    && (forall a, b :: UsedByExact(s, a, b))
    && (forall n :: n in s.usage ==> Small(s.usage[n]))
  }

  lemma {:induction false} RunKeepsInvariant(ops: seq<Op>)
    ensures Invariant(Run(ops))
  {
    if ops != [] {
      var s := Run(ops[..|ops| - 1]);
      RunKeepsInvariant(ops[..|ops| - 1]);
      StepKeepsInvariant(s, ops[|ops| - 1]);
    }
  }

  lemma StepKeepsInvariant(s: State, op: Op)
    requires Invariant(s)
    ensures Invariant(Step(s, op))
  {
    forall a, b ensures Covered(Step(s, op), a, b) && UsingExact(Step(s, op), a, b) && UsedByExact(Step(s, op), a, b) {
      match op
      case Register(_, _, _) => RegisterKeepsPair(s, op, a, b);
      case Unregister(_) => UnregisterKeepsPair(s, op, a, b);
      case CleanUp(_) => CleanUpKeepsPair(s, op, a, b);
    }
    forall n | n in Step(s, op).usage ensures Small(Step(s, op).usage[n]) {
      StepKeepsSmall(s, op, n);
    }
  }

  lemma RegisterKeepsPair(s: State, op: Op, a: string, b: string)
    requires Invariant(s) && op.Register?
    ensures Covered(Step(s, op), a, b) && UsingExact(Step(s, op), a, b) && UsedByExact(Step(s, op), a, b)
  {
    assert Covered(s, a, b) && UsingExact(s, a, b) && UsedByExact(s, a, b);
    RegisterKeepsUsingExact(s, op, a, b);
    RegisterKeepsUsedByExact(s, op, a, b);
  }

  lemma RegisterKeepsUsingExact(s: State, op: Op, a: string, b: string)
    requires UsingExact(s, a, b) && op.Register?
    ensures UsingExact(Step(s, op), a, b)
  {
  }

  lemma RegisterKeepsUsedByExact(s: State, op: Op, a: string, b: string)
    requires UsedByExact(s, a, b) && op.Register?
    ensures UsedByExact(Step(s, op), a, b)
  {
  }

  lemma UnregisterKeepsPair(s: State, op: Op, a: string, b: string)
    requires Invariant(s) && op.Unregister?
    ensures Covered(Step(s, op), a, b) && UsingExact(Step(s, op), a, b) && UsedByExact(Step(s, op), a, b)
  {
    assert Covered(s, a, b) && UsingExact(s, a, b) && UsedByExact(s, a, b);
  }

  lemma CleanUpKeepsPair(s: State, op: Op, a: string, b: string)
    requires Invariant(s) && op.CleanUp?
    ensures Covered(Step(s, op), a, b) && UsingExact(Step(s, op), a, b) && UsedByExact(Step(s, op), a, b)
  {
    assert Covered(s, a, b) && UsingExact(s, a, b) && UsedByExact(s, a, b);
    if (a, b) in Step(s, op).live {
      var user, target := Expire(s.usage[a], op.cutoff), Expire(s.usage[b], op.cutoff);
      assert user.usingTooMany || b in user.using;
      assert target.usedByTooMany || a in target.usedBy;
    }
  }

  lemma StepKeepsSmall(s: State, op: Op, n: string)
    requires Invariant(s) && n in Step(s, op).usage
    ensures Small(Step(s, op).usage[n])
  {
    match op
    case Register(a, b, timestamp) =>
      WriteKeepsSmall(RecordOf(s.usage, a), b, timestamp);
      var u1 := s.usage[a := WithUsing(RecordOf(s.usage, a), b, timestamp)];
      WriteKeepsSmall(RecordOf(u1, b), a, timestamp);
    case Unregister(node) =>
      if node in s.usage {
        ForgetKeepsSmall(n, s.usage[n], node, s.usage[node]);
      }
    case CleanUp(cutoff) =>
      DropKeepsSmall(s.usage[n].using, NotBefore(s.usage[n].using, cutoff));
      DropKeepsSmall(s.usage[n].usedBy, NotBefore(s.usage[n].usedBy, cutoff));
  }

  lemma WriteKeepsSmall(r: Record, node: string, timestamp: int)
    requires Small(r)
    ensures Small(WithUsing(r, node, timestamp)) && Small(WithUsedBy(r, node, timestamp))
  {
    InsertSize(r.using, node, timestamp);
    InsertSize(r.usedBy, node, timestamp);
  }

  lemma InsertSize(m: map<string, int>, k: string, v: int)
    ensures |m[k := v]| <= |m| + 1
  {
    var keys := m[k := v].Keys;
    assert keys == m.Keys + {k};
    assert |keys| == |m.Keys + {k}|;
  }

  lemma ForgetKeepsSmall(key: string, r: Record, node: string, gone: Record)
    requires Small(r)
    ensures Small(Forget(key, r, node, gone))
  {
    DropKeepsSmall(r.using, r.using - {node});
    DropKeepsSmall(r.usedBy, r.usedBy - {node});
  }

  lemma DropKeepsSmall(m: map<string, int>, smaller: map<string, int>)
    requires smaller.Keys <= m.Keys
    ensures |smaller| <= |m|
  {
    SubsetSize(smaller.Keys, m.Keys);
  }

  // ----- what the invariant gives to callers

  /** The exact relation's answer to "who shares a target with `node`". */
  ghost predicate SharesTarget(r: Relation, node: string, other: string) {
    exists target :: (node, target) in r && (other, target) in r
  }

  /** After any run, removing a node invalidates at least that node and everyone who shares a target with it. */
  lemma RemovalInvalidatesSharers(ops: seq<Op>, node: string, keys: set<string>, other: string)
    requires other in keys && SharesTarget(Run(ops).live, node, other)
    ensures other in Invalidated(Run(ops).usage, node, keys)
  {
    var s := Run(ops);
    RunKeepsInvariant(ops);
    var target :| (node, target) in s.live && (other, target) in s.live;
    assert Covered(s, node, target) && Covered(s, other, target);
  }

  predicate NeverSaturated(s: State) {
    s.lostTargets == {} && s.lostUsers == {}
    && forall n :: n in s.usage ==> !s.usage[n].usingTooMany && !s.usage[n].usedByTooMany
  }

  /** With no saturation the tracker is the exact relation, and a removal invalidates no one else. */
  lemma RemovalIsExactWithoutSaturation(ops: seq<Op>, node: string, keys: set<string>, other: string)
    requires NeverSaturated(Run(ops)) && other in keys
    ensures other in Invalidated(Run(ops).usage, node, keys) <==> SharesTarget(Run(ops).live, node, other)
  {
    var s := Run(ops);
    RunKeepsInvariant(ops);
    if other in Invalidated(s.usage, node, keys) {
      var target :| target in RecordOf(s.usage, node).using && target in s.usage && other in s.usage[target].usedBy;
      assert UsingExact(s, node, target) && UsedByExact(s, other, target);
    } else {
      forall target ensures !((node, target) in s.live && (other, target) in s.live) {
        assert Covered(s, node, target) && Covered(s, other, target);
      }
    }
  }

  /** The two sides of the index mirror each other wherever neither is saturated nor was lost while saturated. */
  lemma SidesMirror(ops: seq<Op>, a: string, b: string)
    requires !RecordOf(Run(ops).usage, a).usingTooMany && !RecordOf(Run(ops).usage, b).usedByTooMany
    requires a !in Run(ops).lostUsers && b !in Run(ops).lostTargets
    ensures Get(RecordOf(Run(ops).usage, a).using, b) == Get(RecordOf(Run(ops).usage, b).usedBy, a)
  {
    RunKeepsInvariant(ops);
    assert UsingExact(Run(ops), a, b) && UsedByExact(Run(ops), a, b);
  }

  /** Neither side ever holds more than the recording limit. */
  lemma RecordsStaySmall(ops: seq<Op>, node: string)
    requires node in Run(ops).usage
    ensures Small(Run(ops).usage[node])
  {
    RunKeepsInvariant(ops);
  }

  /** Unregistering a node that was never saturated leaves no mention of it in any unsaturated side. */
  lemma UnregisterLeavesNoMention(ops: seq<Op>, node: string, other: string)
    requires
      var s := Run(ops);
      !RecordOf(s.usage, node).usingTooMany && !RecordOf(s.usage, node).usedByTooMany
      && node !in s.lostTargets && node !in s.lostUsers
    ensures
      var r := RecordOf(AfterUnregister(Run(ops).usage, node), other);
      && (!r.usingTooMany ==> node !in r.using)
      && (!r.usedByTooMany ==> node !in r.usedBy)
      && node !in AfterUnregister(Run(ops).usage, node)
  {
    var s := Run(ops);
    RunKeepsInvariant(ops);
    StepKeepsInvariant(s, Unregister(node));
    var t := Step(s, Unregister(node));
    assert UsingExact(t, other, node) && UsedByExact(t, node, other);
  }

  /** Whoever relies on the removed node itself, and shares no target with it, is not invalidated. */
  lemma RelierStays(user: string, target: string, timestamp: int)
    requires user != target
    ensures
      var s := Run([Register(user, target, timestamp)]);
      (user, target) in s.live && user !in Invalidated(s.usage, target, {user})
  {
    var op := Register(user, target, timestamp);
    RunSnoc([], op);
    assert [] + [op] == [op];
  }
}
