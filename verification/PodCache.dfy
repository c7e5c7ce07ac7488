/**
 * Predicate results shared among pods of the same controller (core/utils.go).
 *
 * Pods of one controller with the same labels and spec are taken to be alike: the predicates run
 * for the first of them only, and the others get its verdict.
 */
module PodCache {
  import opened Cluster
  import opened Wrappers

  /** Why a pod does not fit, if it does not. */
  type Verdict = Option<string>

  type Judge = Pod -> Verdict

  predicate Alike(a: Pod, b: Pod) {
    a.controller.Some? && a.controller == b.controller && a.labels == b.labels && a.spec == b.spec
  }

  /** The first pod of `pods` that is like `pod`, or else `pod` itself. */
  function Representative(pods: seq<Pod>, pod: Pod): Pod {
    if pods == [] then pod else if Alike(pods[0], pod) then pods[0] else Representative(pods[1..], pod)
  }

  predicate HasAlike(pods: seq<Pod>, pod: Pod) {
    exists p :: p in pods && Alike(p, pod)
  }

  /** What is known about a pod once `seen` have been judged. */
  function Known(seen: seq<Pod>, judge: Judge, pod: Pod): Option<Verdict> {
    if HasAlike(seen, pod) then Some(judge(Representative(seen, pod))) else None
  }

  lemma {:induction false} RepresentativeSnoc(pods: seq<Pod>, last: Pod, pod: Pod)
    ensures Representative(pods + [last], pod) ==
            if HasAlike(pods, pod) then Representative(pods, pod) else if Alike(last, pod) then last else pod
  {
    if pods == [] {
      assert [last][1..] == [];
    } else {
      assert (pods + [last])[1..] == pods[1..] + [last];
      if !Alike(pods[0], pod) {
        RepresentativeSnoc(pods[1..], last, pod);
      }
    }
  }

  lemma {:induction false} RepresentativeIsAlike(pods: seq<Pod>, pod: Pod)
    ensures if HasAlike(pods, pod) then Representative(pods, pod) in pods && Alike(Representative(pods, pod), pod)
            else Representative(pods, pod) == pod
  {
    if pods != [] && !Alike(pods[0], pod) {
      RepresentativeIsAlike(pods[1..], pod);
    }
  }

  lemma KnownSnoc(seen: seq<Pod>, judge: Judge, next: Pod, pod: Pod)
    ensures Known(seen + [next], judge, pod) ==
            if HasAlike(seen, pod) then Known(seen, judge, pod) else if Alike(next, pod) then Some(judge(next))
              else None
  {
    RepresentativeSnoc(seen, next, pod);
    if HasAlike(seen, pod) {
      var p :| p in seen && Alike(p, pod);
      assert p in seen + [next];
    } else if Alike(next, pod) {
      assert next in seen + [next];
    }
  }

  // ----- the cache

  datatype Info = Info(spec: PodSpec, labels: map<string, string>, verdict: Verdict)
  {
    predicate Match(pod: Pod) {
      pod.labels == labels && pod.spec == spec
    }
  }

  function FirstMatch(infos: seq<Info>, pod: Pod): Option<Verdict> {
    if infos == [] then None else if infos[0].Match(pod) then Some(infos[0].verdict) else FirstMatch(infos[1..], pod)
  }

  function LookUp(m: map<string, seq<Info>>, pod: Pod): Option<Verdict> {
    if pod.controller.None? || pod.controller.value !in m then None else FirstMatch(m[pod.controller.value], pod)
  }

  /** The cache knows exactly what judging `seen` told. */
  ghost predicate Caches(m: map<string, seq<Info>>, seen: seq<Pod>, judge: Judge) {
    forall pod :: LookUp(m, pod) == Known(seen, judge, pod)
  }

  class PodSchedulableMap {
    var infos: map<string, seq<Info>>

    constructor ()
      ensures infos == map[]
    {
      infos := map[];
    }

    method Get(pod: Pod) returns (verdict: Option<Verdict>)
      ensures verdict == LookUp(infos, pod)
    {
      if pod.controller.None? || pod.controller.value !in infos {
        return None;
      }
      var candidates := infos[pod.controller.value];
      for k := 0 to |candidates|
        invariant FirstMatch(candidates, pod) == FirstMatch(candidates[k..], pod)
      {
        if candidates[k].Match(pod) {
          return Some(candidates[k].verdict);
        }
        assert candidates[k..][1..] == candidates[k + 1..];
      }
      return None;
    }

    method Set(pod: Pod, verdict: Verdict)
      modifies this
      ensures infos == WithVerdict(old(infos), pod, verdict)
    {
      if pod.controller.None? {
        return;
      }
      var uid := pod.controller.value;
      var known := if uid in infos then infos[uid] else [];
      infos := infos[uid := known + [Info(pod.spec, pod.labels, verdict)]];
    }
  }

  function WithVerdict(m: map<string, seq<Info>>, pod: Pod, verdict: Verdict): map<string, seq<Info>> {
    if pod.controller.None? then m
    else
      var uid := pod.controller.value;
      m[uid := (if uid in m then m[uid] else []) + [Info(pod.spec, pod.labels, verdict)]]
  }

  lemma {:induction false} FirstMatchSnoc(infos: seq<Info>, last: Info, pod: Pod)
    ensures FirstMatch(infos + [last], pod) ==
            if FirstMatch(infos, pod).Some? then FirstMatch(infos, pod) else if last.Match(pod) then Some(last.verdict)
              else None
  {
    if infos == [] {
      assert [last][1..] == [];
    } else {
      assert (infos + [last])[1..] == infos[1..] + [last];
      FirstMatchSnoc(infos[1..], last, pod);
    }
  }

  lemma LookUpAfterSet(m: map<string, seq<Info>>, next: Pod, verdict: Verdict, pod: Pod)
    ensures LookUp(WithVerdict(m, next, verdict), pod) ==
            if LookUp(m, pod).Some? then LookUp(m, pod) else if Alike(next, pod) then Some(verdict) else None
  {
    if next.controller.Some? {
      var uid := next.controller.value;
      FirstMatchSnoc(if uid in m then m[uid] else [], Info(next.spec, next.labels, verdict), pod);
    }
  }

  /** Judging a pod that is not in the cache, and caching its verdict. */
  lemma CacheMiss(m: map<string, seq<Info>>, seen: seq<Pod>, judge: Judge, next: Pod)
    requires Caches(m, seen, judge) && LookUp(m, next).None?
    ensures Caches(WithVerdict(m, next, judge(next)), seen + [next], judge)
  {
    forall pod ensures LookUp(WithVerdict(m, next, judge(next)), pod) == Known(seen + [next], judge, pod) {
      assert LookUp(m, pod) == Known(seen, judge, pod);
      LookUpAfterSet(m, next, judge(next), pod);
      KnownSnoc(seen, judge, next, pod);
    }
  }

  /** A pod found in the cache adds nothing to it. */
  lemma CacheHit(m: map<string, seq<Info>>, seen: seq<Pod>, judge: Judge, next: Pod)
    requires Caches(m, seen, judge) && LookUp(m, next).Some?
    ensures Caches(m, seen + [next], judge)
  {
    assert Known(seen, judge, next).Some?;
    var p :| p in seen && Alike(p, next);
    forall pod ensures LookUp(m, pod) == Known(seen + [next], judge, pod) {
      assert LookUp(m, pod) == Known(seen, judge, pod);
      KnownSnoc(seen, judge, next, pod);
      if Alike(next, pod) {
        assert Alike(p, pod);
      }
    }
  }

  // ----- its two users

  /** A pod's verdict as the cache gives it when `pods` are judged in order. */
  function SharedVerdict(pods: seq<Pod>, judge: Judge, pod: Pod): Verdict {
    judge(Representative(pods, pod))
  }

  /** The pods that do not pass, in order, by the given verdicts. */
  function Rejected(pods: seq<Pod>, verdict: Judge): seq<Pod> {
    if pods == [] then []
    else Rejected(pods[..|pods| - 1], verdict) + (if verdict(pods[|pods| - 1]).Some? then [pods[|pods| - 1]] else [])
  }

  function Shared(pods: seq<Pod>, judge: Judge): Judge {
    pod => SharedVerdict(pods, judge, pod)
  }

  /** The pods the predicates ran for: no two alike, and one for every pod. */
  ghost predicate JudgedOnce(pods: seq<Pod>, asked: seq<Pod>) {
    && (forall i, j :: 0 <= i < j < |asked| ==> !Alike(asked[i], asked[j]))
    && (forall p :: p in asked ==> p in pods)
    && (forall p :: p in pods ==> Representative(pods, p) in asked)
  }

  lemma JudgedOneMore(pods: seq<Pod>, asked: seq<Pod>, next: Pod)
    requires JudgedOnce(pods, asked)
    ensures JudgedOnce(pods + [next], if HasAlike(pods, next) then asked else asked + [next])
  {
    var asked' := if HasAlike(pods, next) then asked else asked + [next];
    StillDistinct(pods, asked, next);
    forall p | p in pods + [next] ensures Representative(pods + [next], p) in asked' {
      if p in pods {
        StillRepresented(pods, next, p);
      } else {
        OwnRepresentative(pods, next, asked);
      }
    }
  }

  lemma StillDistinct(pods: seq<Pod>, asked: seq<Pod>, next: Pod)
    requires JudgedOnce(pods, asked)
    ensures
      var asked' := if HasAlike(pods, next) then asked else asked + [next];
      && (forall i, j :: 0 <= i < j < |asked'| ==> !Alike(asked'[i], asked'[j]))
      && (forall p :: p in asked' ==> p in pods + [next])
  {
    if !HasAlike(pods, next) {
      forall i | 0 <= i < |asked| ensures !Alike(asked[i], next) {
        assert asked[i] in pods;
      }
    }
  }

  lemma StillRepresented(pods: seq<Pod>, next: Pod, p: Pod)
    requires p in pods
    ensures Representative(pods + [next], p) == Representative(pods, p)
  {
    RepresentativeSnoc(pods, next, p);
    RepresentativeIsAlike(pods, p);
    if !HasAlike(pods, p) {
      assert !Alike(p, p);
    }
  }

  lemma OwnRepresentative(pods: seq<Pod>, next: Pod, asked: seq<Pod>)
    requires JudgedOnce(pods, asked)
    ensures Representative(pods + [next], next) in (if HasAlike(pods, next) then asked else asked + [next])
  {
    RepresentativeSnoc(pods, next, next);
    if HasAlike(pods, next) {
      RepresentativeIsAlike(pods, next);
      var q := Representative(pods, next);
      RepresentativesAgree(pods, q, next);
    }
  }

  /** Pods that are alike have the same representative. */
  lemma {:induction false} RepresentativesAgree(pods: seq<Pod>, a: Pod, b: Pod)
    requires Alike(a, b) && HasAlike(pods, b)
    ensures Representative(pods, a) == Representative(pods, b)
  {
    if !Alike(pods[0], b) {
      RepresentativesAgree(pods[1..], a, b);
    }
  }

  /** One pod: its verdict comes from the cache, or from the predicates and then goes into the cache. */
  method JudgePod(cache: PodSchedulableMap, pods: seq<Pod>, k: nat, judge: Judge, ghost asked: seq<Pod>)
    returns (verdict: Verdict, ghost asked': seq<Pod>)
    requires k < |pods| && Caches(cache.infos, pods[..k], judge) && JudgedOnce(pods[..k], asked)
    modifies cache
    ensures Caches(cache.infos, pods[..k + 1], judge) && JudgedOnce(pods[..k + 1], asked')
    ensures verdict == SharedVerdict(pods[..k], judge, pods[k])
  {
    ghost var m := cache.infos;
    var pod := pods[k];
    assert pods[..k + 1] == pods[..k] + [pod];
    var cached := cache.Get(pod);
    assert LookUp(m, pod) == Known(pods[..k], judge, pod);
    JudgedOneMore(pods[..k], asked, pod);
    if cached.Some? {
      CacheHit(m, pods[..k], judge, pod);
      return cached.value, asked;
    }
    RepresentativeIsAlike(pods[..k], pod);
    verdict := judge(pod);
    cache.Set(pod, verdict);
    CacheMiss(m, pods[..k], judge, pod);
    asked' := asked + [pod];
  }

  /** The representative of a pod of the list is found before it, or is that pod. */
  lemma RepresentativeInPrefix(pods: seq<Pod>, k: nat)
    requires k < |pods|
    ensures Representative(pods[..k], pods[k]) == Representative(pods, pods[k])
  {
    RepresentativeOfPrefix(pods[..k], pods[k..], pods[k]);
    assert pods == pods[..k] + pods[k..];
    RepresentativeIsAlike(pods[..k], pods[k]);
    RepresentativeIsAlike(pods[k..], pods[k]);
  }

  lemma {:induction false} RepresentativeOfPrefix(front: seq<Pod>, back: seq<Pod>, pod: Pod)
    ensures Representative(front + back, pod) == if HasAlike(front, pod) then Representative(front, pod)
            else Representative(back, pod)
  {
    if front == [] {
      assert front + back == back;
    } else {
      assert (front + back)[1..] == front[1..] + back;
      if !Alike(front[0], pod) {
        RepresentativeOfPrefix(front[1..], back, pod);
      }
    }
  }

  lemma CachesNothing(judge: Judge)
    ensures Caches(map[], [], judge)
  {
  }

  /** The candidates that fit on no node. */
  method FilterOutSchedulable(candidates: seq<Pod>, fitsAny: Judge)
    returns (unschedulable: seq<Pod>, ghost asked: seq<Pod>)
    ensures unschedulable == Rejected(candidates, Shared(candidates, fitsAny))
    ensures JudgedOnce(candidates, asked)
  {
    var cache := new PodSchedulableMap();
    unschedulable, asked := [], [];
    CachesNothing(fitsAny);
    for k := 0 to |candidates|
      invariant fresh(cache)
      invariant Caches(cache.infos, candidates[..k], fitsAny) && JudgedOnce(candidates[..k], asked)
      invariant unschedulable == Rejected(candidates[..k], Shared(candidates, fitsAny))
    {
      var verdict;
      verdict, asked := JudgePod(cache, candidates, k, fitsAny, asked);
      RepresentativeInPrefix(candidates, k);
      assert candidates[..k + 1][..k] == candidates[..k];
      if verdict.Some? {
        unschedulable := unschedulable + [candidates[k]];
      }
    }
    assert candidates[..|candidates|] == candidates;
  }

  /** The verdict of every pod on one node. */
  method CheckPodsSchedulableOnNode(pods: seq<Pod>, fits: Judge)
    returns (errors: map<Pod, Verdict>, ghost asked: seq<Pod>)
    ensures forall p :: p in errors <==> p in pods
    ensures forall p :: p in pods ==> errors[p] == SharedVerdict(pods, fits, p)
    ensures JudgedOnce(pods, asked)
  {
    var cache := new PodSchedulableMap();
    errors, asked := map[], [];
    CachesNothing(fits);
    for k := 0 to |pods|
      invariant fresh(cache)
      invariant Caches(cache.infos, pods[..k], fits) && JudgedOnce(pods[..k], asked)
      invariant VerdictsFor(errors, pods, k, fits)
    {
      var verdict;
      verdict, asked := JudgePod(cache, pods, k, fits, asked);
      RepresentativeInPrefix(pods, k);
      VerdictsSnoc(errors, pods, k, fits);
      errors := errors[pods[k] := verdict];
    }
    assert pods[..|pods|] == pods;
  }

  /** Exactly the first `k` pods have verdicts, those of their representatives. */
  ghost predicate VerdictsFor(errors: map<Pod, Verdict>, pods: seq<Pod>, k: nat, fits: Judge)
    requires k <= |pods|
  {
    && (forall p :: p in errors <==> p in pods[..k])
    && (forall p :: p in errors ==> errors[p] == SharedVerdict(pods, fits, p))
  }

  lemma VerdictsSnoc(errors: map<Pod, Verdict>, pods: seq<Pod>, k: nat, fits: Judge)
    requires k < |pods| && VerdictsFor(errors, pods, k, fits)
    ensures VerdictsFor(errors[pods[k] := SharedVerdict(pods, fits, pods[k])], pods, k + 1, fits)
  {
    assert pods[..k + 1] == pods[..k] + [pods[k]];
  }

  // ----- when sharing is sound

  /** Every pod passes or fails as its representative does. */
  ghost predicate SharingSound(pods: seq<Pod>, judge: Judge) {
    forall p :: p in pods ==> (judge(Representative(pods, p)).Some? <==> judge(p).Some?)
  }

  lemma {:induction false} RejectedExactly(pods: seq<Pod>, verdict: Judge, p: Pod)
    ensures p in Rejected(pods, verdict) <==> p in pods && verdict(p).Some?
  {
    if pods != [] {
      var n := |pods| - 1;
      RejectedExactly(pods[..n], verdict, p);
      assert pods == pods[..n] + [pods[n]];
    }
  }

  lemma {:induction false} RejectedSame(pods: seq<Pod>, a: Judge, b: Judge)
    requires forall p :: p in pods ==> (a(p).Some? <==> b(p).Some?)
    ensures Rejected(pods, a) == Rejected(pods, b)
  {
    if pods != [] {
      var n := |pods| - 1;
      assert pods == pods[..n] + [pods[n]];
      RejectedSame(pods[..n], a, b);
    }
  }

  /** The cached filter is the uncached one exactly if every pod passes or fails as its representative does. */
  lemma CachedEqualsUncachedIff(pods: seq<Pod>, judge: Judge)
    ensures Rejected(pods, Shared(pods, judge)) == Rejected(pods, judge) <==> SharingSound(pods, judge)
  {
    if SharingSound(pods, judge) {
      RejectedSame(pods, Shared(pods, judge), judge);
    } else {
      var p :| p in pods && !(judge(Representative(pods, p)).Some? <==> judge(p).Some?);
      RejectedExactly(pods, Shared(pods, judge), p);
      RejectedExactly(pods, judge, p);
    }
  }

  /** A judge that treats pods that are alike the same makes every shared verdict the pod's own. */
  lemma ImpartialJudgeIsShared(pods: seq<Pod>, judge: Judge, p: Pod)
    requires forall a, b :: Alike(a, b) ==> judge(a) == judge(b)
    ensures SharedVerdict(pods, judge, p) == judge(p)
    ensures SharingSound(pods, judge)
  {
    forall q ensures judge(Representative(pods, q)) == judge(q) {
      RepresentativeIsAlike(pods, q);
    }
  }
}
