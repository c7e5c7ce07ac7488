/** The cache of auto-scaling groups of the AWS provider (cloudprovider/aws/auto_scaling_groups.go). */
module AsgCache {
  import opened Wrappers

  datatype Bounds = Bounds(min: int, max: int)

  /** The value of a group's record; `details` stands for what templates are built from. */
  datatype Info = Info(ref: string, bounds: Bounds, curSize: int, details: string)

  /** A group as AWS describes it. */
  datatype Group = Group(name: string, bounds: Bounds, desired: int, details: string, instances: seq<string>)

  predicate WellFormed(name: string, b: Bounds) {
    b.min >= 0 && b.max >= b.min && name != ""
  }

  function FromAws(g: Group): Info {
    Info(g.name, g.bounds, g.desired, g.details)
  }

  // ----- what registering does to the list of records

  predicate Has(infos: seq<Info>, ref: string) {
    exists i :: 0 <= i < |infos| && infos[i].ref == ref
  }

  ghost predicate DistinctRefs(infos: seq<Info>) {
    forall i, j :: 0 <= i < j < |infos| ==> infos[i].ref != infos[j].ref
  }

  /** A known record takes over the new data; the bounds of an explicitly configured one stay. */
  function Updated(known: Info, info: Info, explicit: set<string>): Info {
    info.(bounds := if info.ref in explicit then known.bounds else info.bounds)
  }

  function WithAsg(infos: seq<Info>, info: Info, explicit: set<string>): seq<Info> {
    if Has(infos, info.ref)
    then seq(|infos|, i requires 0 <= i < |infos| => if infos[i].ref == info.ref then Updated(infos[i], info, explicit)
             else infos[i])
    else infos + [info]
  }

  function WithGroups(infos: seq<Info>, groups: seq<Group>, explicit: set<string>): seq<Info> {
    if groups == [] then infos
    else WithAsg(WithGroups(infos, groups[..|groups| - 1], explicit), FromAws(groups[|groups| - 1]), explicit)
  }

  /** Without the records whose ref is not to be kept. */
  function Keeping(infos: seq<Info>, keep: set<string>): seq<Info> {
    if infos == [] then []
    else Keeping(infos[..|infos| - 1], keep) + (if infos[|infos| - 1].ref in keep then [infos[|infos| - 1]] else [])
  }

  function Names(groups: seq<Group>): set<string> {
    set g | g in groups :: g.name
  }

  // ----- the two instance indexes

  /** The instances of each group; for a group that is described twice, those of the last description. */
  function InstancesOf(groups: seq<Group>): map<string, seq<string>> {
    if groups == [] then map[]
    else InstancesOf(groups[..|groups| - 1])[groups[|groups| - 1].name := groups[|groups| - 1].instances]
  }

  /** The group of each instance; for an instance in two groups, the last one. */
  function OwnersOf(groups: seq<Group>): map<string, string> {
    if groups == [] then map[]
    else
      var before, last := OwnersOf(groups[..|groups| - 1]), groups[|groups| - 1];
      map i | i in before.Keys + (set x | x in last.instances) :: if i in last.instances then last.name else before[i]
  }

  /** The two indexes say the same. */
  ghost predicate Inverse(instances: map<string, seq<string>>, owners: map<string, string>) {
    && (forall i :: i in owners ==> owners[i] in instances && i in instances[owners[i]])
    && (forall r, i :: r in instances && i in instances[r] ==> i in owners && owners[i] == r)
  }

  ghost predicate DistinctNames(groups: seq<Group>) {
    forall j, k :: 0 <= j < k < |groups| ==> groups[j].name != groups[k].name
  }

  ghost predicate NoSharedInstance(groups: seq<Group>) {
    forall j, k, i :: 0 <= j < k < |groups| ==> !(i in groups[j].instances && i in groups[k].instances)
  }

  /** Index entries come from groups, and every group and instance has an entry. */
  lemma {:induction false} EntriesComeFromGroups(groups: seq<Group>, r: string, i: string)
    ensures r in InstancesOf(groups) <==> exists k :: 0 <= k < |groups| && groups[k].name == r
    ensures r in InstancesOf(groups) ==> exists k ::
              0 <= k < |groups| && groups[k].name == r && InstancesOf(groups)[r] == groups[k].instances
    ensures i in OwnersOf(groups) <==> exists k :: 0 <= k < |groups| && i in groups[k].instances
    ensures i in OwnersOf(groups) ==> exists k ::
              0 <= k < |groups| && i in groups[k].instances && OwnersOf(groups)[i] == groups[k].name
  {
    if groups != [] {
      var n := |groups| - 1;
      EntriesComeFromGroups(groups[..n], r, i);
      assert forall k :: 0 <= k < n ==> groups[..n][k] == groups[k];
    }
  }

  lemma GroupHasEntry(groups: seq<Group>, k: nat)
    requires DistinctNames(groups) && k < |groups|
    ensures groups[k].name in InstancesOf(groups) && InstancesOf(groups)[groups[k].name] == groups[k].instances
  {
    EntriesComeFromGroups(groups, groups[k].name, "");
  }

  /** With no group described twice, the indexes are inverse exactly if no instance is in two groups. */
  lemma IndexesAreInverseIff(groups: seq<Group>)
    requires DistinctNames(groups)
    ensures Inverse(InstancesOf(groups), OwnersOf(groups)) <==> NoSharedInstance(groups)
  {
    if NoSharedInstance(groups) {
      UnsharedIsInverse(groups);
    } else {
      SharedIsNotInverse(groups);
    }
  }

  lemma UnsharedIsInverse(groups: seq<Group>)
    requires DistinctNames(groups) && NoSharedInstance(groups)
    ensures Inverse(InstancesOf(groups), OwnersOf(groups))
  {
    var instances, owners := InstancesOf(groups), OwnersOf(groups);
    forall i | i in owners ensures owners[i] in instances && i in instances[owners[i]] {
      EntriesComeFromGroups(groups, "", i);
      var k :| 0 <= k < |groups| && i in groups[k].instances && owners[i] == groups[k].name;
      GroupHasEntry(groups, k);
    }
    forall r, i | r in instances && i in instances[r] ensures i in owners && owners[i] == r {
      EntriesComeFromGroups(groups, r, i);
    }
  }

  lemma SharedEntry(instances: map<string, seq<string>>, owners: map<string, string>, r: string, q: string, i: string)
    requires r != q && r in instances && q in instances && i in instances[r] && i in instances[q]
    ensures !Inverse(instances, owners)
  {
    assert i in owners && owners[i] == r ==> owners[i] != q;
  }

  lemma SharedIsNotInverse(groups: seq<Group>)
    requires DistinctNames(groups) && !NoSharedInstance(groups)
    ensures !Inverse(InstancesOf(groups), OwnersOf(groups))
  {
    var j, k, i :| 0 <= j < k < |groups| && i in groups[j].instances && i in groups[k].instances;
    GroupHasEntry(groups, j);
    GroupHasEntry(groups, k);
    assert groups[j].name != groups[k].name;
    SharedEntry(InstancesOf(groups), OwnersOf(groups), groups[j].name, groups[k].name, i);
  }

  // ----- what the list of records keeps

  /** Explicitly configured groups are there, with the bounds they were configured with. */
  ghost predicate KeepsConfigured(infos: seq<Info>, configured: map<string, Bounds>) {
    && (forall r :: r in configured ==> Has(infos, r))
    && (forall k :: 0 <= k < |infos| && infos[k].ref in configured ==> infos[k].bounds == configured[infos[k].ref])
  }

  lemma WithAsgHas(infos: seq<Info>, info: Info, explicit: set<string>, r: string)
    ensures Has(WithAsg(infos, info, explicit), r) <==> Has(infos, r) || r == info.ref
  {
    var after := WithAsg(infos, info, explicit);
    if Has(infos, r) {
      var i :| 0 <= i < |infos| && infos[i].ref == r;
      assert after[i].ref == r;
    } else if r == info.ref {
      assert after[|infos|].ref == r;
    }
  }

  lemma WithAsgKeeps(infos: seq<Info>, info: Info, configured: map<string, Bounds>)
    requires DistinctRefs(infos) && KeepsConfigured(infos, configured)
    ensures DistinctRefs(WithAsg(infos, info, configured.Keys))
            && KeepsConfigured(WithAsg(infos, info, configured.Keys), configured)
    ensures forall r :: Has(WithAsg(infos, info, configured.Keys), r) <==> Has(infos, r) || r == info.ref
  {
    forall r ensures Has(WithAsg(infos, info, configured.Keys), r) <==> Has(infos, r) || r == info.ref {
      WithAsgHas(infos, info, configured.Keys, r);
    }
  }

  lemma {:induction false} WithGroupsKeeps(infos: seq<Info>, groups: seq<Group>, configured: map<string, Bounds>)
    requires DistinctRefs(infos) && KeepsConfigured(infos, configured)
    ensures
      var after := WithGroups(infos, groups, configured.Keys);
      && DistinctRefs(after) && KeepsConfigured(after, configured)
      && forall r :: Has(after, r) <==> Has(infos, r) || r in Names(groups)
  {
    if groups != [] {
      var n := |groups| - 1;
      WithGroupsKeeps(infos, groups[..n], configured);
      WithAsgKeeps(WithGroups(infos, groups[..n], configured.Keys), FromAws(groups[n]), configured);
      NamesSnoc(groups, n);
    }
  }

  lemma NamesSnoc(groups: seq<Group>, k: nat)
    requires k < |groups|
    ensures Names(groups[..k + 1]) == Names(groups[..k]) + {groups[k].name}
    ensures k + 1 == |groups| ==> Names(groups) == Names(groups[..k]) + {groups[k].name}
  {
    assert groups[..k + 1] == groups[..k] + [groups[k]];
    assert k + 1 == |groups| ==> groups[..k + 1] == groups;
  }

  lemma {:induction false} KeepingExactly(infos: seq<Info>, keep: set<string>, info: Info)
    ensures info in Keeping(infos, keep) <==> info in infos && info.ref in keep
  {
    if infos != [] {
      var n := |infos| - 1;
      KeepingExactly(infos[..n], keep, info);
      assert infos == infos[..n] + [infos[n]];
    }
  }

  lemma {:induction false} KeepingDistinct(infos: seq<Info>, keep: set<string>)
    requires DistinctRefs(infos)
    ensures DistinctRefs(Keeping(infos, keep))
  {
    if infos != [] {
      var n := |infos| - 1;
      KeepingDistinct(infos[..n], keep);
      forall i | 0 <= i < |Keeping(infos[..n], keep)| ensures Keeping(infos[..n], keep)[i].ref != infos[n].ref {
        KeepingExactly(infos[..n], keep, Keeping(infos[..n], keep)[i]);
      }
    }
  }

  /** The records after a complete refresh. */
  function Refreshed(infos: seq<Info>, groups: seq<Group>, explicit: set<string>): seq<Info> {
    Keeping(WithGroups(infos, groups, explicit), explicit + Names(groups))
  }

  /**
   * A complete refresh leaves exactly the configured groups and those AWS returned, each once, with
   * configured bounds kept.
   */
  lemma RefreshedIsExact(infos: seq<Info>, groups: seq<Group>, configured: map<string, Bounds>)
    requires DistinctRefs(infos) && KeepsConfigured(infos, configured)
    ensures
      var after := Refreshed(infos, groups, configured.Keys);
      && DistinctRefs(after) && KeepsConfigured(after, configured)
      && forall r :: Has(after, r) <==> r in configured || r in Names(groups)
  {
    var all, keep := WithGroups(infos, groups, configured.Keys), configured.Keys + Names(groups);
    var after := Keeping(all, keep);
    WithGroupsKeeps(infos, groups, configured);
    KeepingDistinct(all, keep);
    forall r ensures Has(after, r) <==> r in keep {
      if r in keep {
        assert Has(all, r);
        var i :| 0 <= i < |all| && all[i].ref == r;
        KeepingExactly(all, keep, all[i]);
      }
      if Has(after, r) {
        var i :| 0 <= i < |after| && after[i].ref == r;
        KeepingExactly(all, keep, after[i]);
      }
    }
    forall k | 0 <= k < |after| && after[k].ref in configured ensures after[k].bounds == configured[after[k].ref] {
      KeepingExactly(all, keep, after[k]);
    }
  }

  /** The record of a group shows what AWS described last, but for the bounds of configured groups. */
  lemma {:induction false} LastDescriptionShows(infos: seq<Info>, groups: seq<Group>, configured: map<string, Bounds>,
                                                k: nat, info: Info)
    requires DistinctRefs(infos) && KeepsConfigured(infos, configured)
    requires k < |groups| && forall j :: k < j < |groups| ==> groups[j].name != groups[k].name
    requires info in WithGroups(infos, groups, configured.Keys) && info.ref == groups[k].name
    ensures info ==
            FromAws(groups[k]).(bounds := if info.ref in configured then configured[info.ref] else groups[k].bounds)
  {
    var n := |groups| - 1;
    var before := WithGroups(infos, groups[..n], configured.Keys);
    WithGroupsKeeps(infos, groups[..n], configured);
    if k < n {
      assert info in before;
      LastDescriptionShows(infos, groups[..n], configured, k, info);
    }
  }

  // ----- the cache

  class Asg {
    const ref: string
    var bounds: Bounds
    var curSize: int
    var details: string

    constructor (info: Info)
      ensures Value() == info && ref == info.ref
    {
      ref, bounds, curSize, details := info.ref, info.bounds, info.curSize, info.details;
    }

    function Value(): Info
      reads this
    {
      Info(ref, bounds, curSize, details)
    }
  }

  function Values(asgs: seq<Asg>): seq<Info>
    reads asgs
  {
    seq(|asgs|, i requires 0 <= i < |asgs| reads asgs => asgs[i].Value())
  }

  /** The groups without those whose ref is in `refs`. */
  function Dropping(asgs: seq<Asg>, refs: set<string>): seq<Asg> {
    if asgs == [] then []
    else Dropping(asgs[..|asgs| - 1], refs) + (if asgs[|asgs| - 1].ref in refs then [] else [asgs[|asgs| - 1]])
  }

  lemma {:induction false} DroppingExactly(asgs: seq<Asg>, refs: set<string>, a: Asg)
    ensures a in Dropping(asgs, refs) <==> a in asgs && a.ref !in refs
  {
    if asgs != [] {
      DroppingExactly(asgs[..|asgs| - 1], refs, a);
      assert asgs == asgs[..|asgs| - 1] + [asgs[|asgs| - 1]];
    }
  }

  lemma {:induction false} DroppingTwice(asgs: seq<Asg>, refs: set<string>, ref: string)
    ensures Dropping(Dropping(asgs, refs), {ref}) == Dropping(asgs, refs + {ref})
  {
    if asgs != [] {
      var n := |asgs| - 1;
      DroppingTwice(asgs[..n], refs, ref);
      var front := Dropping(asgs[..n], refs);
      if asgs[n].ref in refs {
        assert front + [] == front;
      } else {
        assert (front + [asgs[n]])[..|front|] == front;
      }
    }
  }

  lemma {:induction false} DroppingNothing(asgs: seq<Asg>)
    ensures Dropping(asgs, {}) == asgs
  {
    if asgs != [] {
      DroppingNothing(asgs[..|asgs| - 1]);
      assert asgs == asgs[..|asgs| - 1] + [asgs[|asgs| - 1]];
    }
  }

  /** Dropping what is not to be kept. */
  lemma {:induction false} DroppingIsKeeping(asgs: seq<Asg>, refs: set<string>, keep: set<string>)
    requires forall a :: a in asgs ==> (a.ref in refs <==> a.ref !in keep)
    ensures Values(Dropping(asgs, refs)) == Keeping(Values(asgs), keep)
  {
    if asgs != [] {
      var n := |asgs| - 1;
      assert asgs == asgs[..n] + [asgs[n]];
      DroppingIsKeeping(asgs[..n], refs, keep);
      assert Values(asgs)[..n] == Values(asgs[..n]);
    }
  }

  /** What AWS answers during one refresh: the names it discovers, and the groups of given names. */
  datatype Service = Service(discovered: Option<seq<string>>, describe: seq<string> -> Option<seq<Group>>)

  datatype Deletion = Deleted | NotCached | DifferentGroups | NilDereference | ServiceFailed

  /** The bounds each name was first specified with. */
  function FirstOf(specs: seq<(string, Bounds)>): map<string, Bounds> {
    if specs == [] then map[]
    else
      var before, last := FirstOf(specs[..|specs| - 1]), specs[|specs| - 1];
      WithFirst(before, last.0, last.1)
  }

  /** The elements that are not in `excluded`, in order. */
  function NotIn(names: seq<string>, excluded: set<string>): seq<string> {
    if names == [] then []
    else NotIn(names[..|names| - 1], excluded) + (if names[|names| - 1] in excluded then [] else [names[|names| - 1]])
  }

  /** The configured names, each once and in any order, followed by the other discovered ones. */
  ghost predicate Requested(explicit: set<string>, discovered: seq<string>, names: seq<string>) {
    var k := |explicit|;
    && k <= |names| && names[k..] == NotIn(discovered, explicit)
    && forall n :: n in names[..k] <==> n in explicit
  }

  lemma OwnersAreNamed(groups: seq<Group>)
    ensures forall i :: i in OwnersOf(groups) ==> OwnersOf(groups)[i] in Names(groups)
  {
    forall i | i in OwnersOf(groups) ensures OwnersOf(groups)[i] in Names(groups) {
      EntriesComeFromGroups(groups, "", i);
    }
  }

  /** The index leads each instance to a registered group, the one that owns it. */
  ghost predicate Indexed(index: map<string, Asg>, owners: map<string, string>, asgs: seq<Asg>) {
    && (forall i :: i in index <==> i in owners)
    && (forall i :: i in index ==> index[i] in asgs && index[i].ref == owners[i])
  }

  lemma IndexOneMore(groups: seq<Group>, k: nat, known: map<string, Asg>, index: map<string, Asg>, asg: Asg,
                     asgs: seq<Asg>)
    requires k < |groups| && asg in asgs && asg.ref == groups[k].name
    requires Indexed(known, OwnersOf(groups[..k]), asgs)
    requires (forall i :: i in index <==> i in known || i in groups[k].instances)
             && (forall i :: i in index ==> index[i] == if i in groups[k].instances then asg else known[i])
    ensures Indexed(index, OwnersOf(groups[..k + 1]), asgs)
    ensures Names(groups[..k + 1]) == Names(groups[..k]) + {groups[k].name}
    ensures InstancesOf(groups[..k + 1]) == InstancesOf(groups[..k])[groups[k].name := groups[k].instances]
  {
    assert groups[..k + 1][..k] == groups[..k];
    NamesSnoc(groups, k);
  }

  /** All groups are explicitly configured ones, each once, with the bounds first given. */
  ghost predicate OnlyConfigured(infos: seq<Info>, configured: map<string, Bounds>) {
    DistinctRefs(infos) && KeepsConfigured(infos, configured) && forall r :: Has(infos, r) <==> r in configured
  }

  function WithFirst(configured: map<string, Bounds>, name: string, bounds: Bounds): map<string, Bounds> {
    if name in configured then configured else configured[name := bounds]
  }

  lemma ExplicitKeeps(infos: seq<Info>, info: Info, configured: map<string, Bounds>)
    requires OnlyConfigured(infos, configured)
    ensures OnlyConfigured(WithAsg(infos, info, configured.Keys + {info.ref}),
                           WithFirst(configured, info.ref, info.bounds))
  {
    var after, configured' := WithAsg(infos, info, configured.Keys + {info.ref}),
                              WithFirst(configured, info.ref, info.bounds);
    forall r ensures Has(after, r) <==> r in configured' {
      WithAsgHas(infos, info, configured.Keys + {info.ref}, r);
    }
    forall k | 0 <= k < |infos| ensures infos[k].ref in configured {
      assert Has(infos, infos[k].ref);
    }
    ExplicitKeepsBounds(infos, info, configured);
  }

  lemma ExplicitKeepsBounds(infos: seq<Info>, info: Info, configured: map<string, Bounds>)
    requires DistinctRefs(infos) && KeepsConfigured(infos, configured)
    requires forall k :: 0 <= k < |infos| ==> infos[k].ref in configured
    requires Has(infos, info.ref) <==> info.ref in configured
    ensures
      var after := WithAsg(infos, info, configured.Keys + {info.ref});
      && DistinctRefs(after)
      && forall k :: 0 <= k < |after| ==> after[k].ref in WithFirst(configured, info.ref, info.bounds)
                                          && after[k].bounds ==
                                            WithFirst(configured, info.ref, info.bounds)[after[k].ref]
  {
  }

  class AsgCache {
    var registeredAsgs: seq<Asg>
    var asgToInstances: map<string, seq<string>>
    var instanceToAsg: map<string, Asg>
    var explicitlyConfigured: set<string>
    /** The bounds of the explicitly configured groups. */
    ghost var configured: map<string, Bounds>

    /** The values of the registered groups, in order. */
    ghost var contents: seq<Info>

    ghost predicate Shown()
      reads this`registeredAsgs, this`contents, registeredAsgs
    {
      contents == Values(registeredAsgs)
    }

    ghost predicate Valid()
      reads this, registeredAsgs
    {
      && Shown() && DistinctRefs(contents) && KeepsConfigured(contents, configured)
        && configured.Keys == explicitlyConfigured
      && forall i :: i in instanceToAsg ==> instanceToAsg[i] in registeredAsgs
    }

    constructor ()
      ensures Valid() && configured == map[] && contents == [] && instanceToAsg == map[]
    {
      registeredAsgs, asgToInstances, instanceToAsg := [], map[], map[];
      explicitlyConfigured, configured, contents := {}, map[], [];
    }

    /** The position of the group with that ref, or the number of groups. */
    method Find(ref: string) returns (i: nat)
      requires Shown()
      ensures i <= |registeredAsgs|
      ensures i < |registeredAsgs| ==> registeredAsgs[i].ref == ref
      ensures i == |registeredAsgs| ==> !Has(contents, ref)
    {
      for k := 0 to |registeredAsgs|
        invariant forall j :: 0 <= j < k ==> registeredAsgs[j].ref != ref
      {
        if registeredAsgs[k].ref == ref {
          return k;
        }
      }
      i := |registeredAsgs|;
    }

    /** Adds a group, or takes over its data if it is known. */
    method Register(asg: Asg) returns (registered: Asg)
      requires Shown() && DistinctRefs(contents) && asg !in registeredAsgs
      modifies this`registeredAsgs, this`contents, registeredAsgs
      ensures Shown() && contents == WithAsg(old(contents), old(asg.Value()), explicitlyConfigured)
      ensures registered in registeredAsgs && registered.ref == asg.ref
      ensures registeredAsgs == old(registeredAsgs) || registeredAsgs == old(registeredAsgs) + [asg]
    {
      var i := Find(asg.ref);
      if i < |registeredAsgs| {
        var existing := registeredAsgs[i];
        assert contents[i].ref == asg.ref;
        assert forall j :: 0 <= j < |registeredAsgs| && j != i ==> contents[j].ref != asg.ref;
        contents := WithAsg(contents, asg.Value(), explicitlyConfigured);
        if existing.Value() == asg.Value() {
          return existing;
        }
        if asg.ref !in explicitlyConfigured {
          existing.bounds := asg.bounds;
        }
        existing.curSize := asg.curSize;
        existing.details := asg.details;
        return existing;
      }
      registeredAsgs := registeredAsgs + [asg];
      contents := contents + [asg.Value()];
      return asg;
    }

    method Unregister(asg: Asg)
      modifies this`registeredAsgs
      ensures registeredAsgs == Dropping(old(registeredAsgs), {asg.ref})
    {
      var updated: seq<Asg> := [];
      for k := 0 to |registeredAsgs|
        invariant updated == Dropping(registeredAsgs[..k], {asg.ref})
      {
        assert registeredAsgs[..k + 1][..k] == registeredAsgs[..k];
        if registeredAsgs[k].ref != asg.ref {
          updated := updated + [registeredAsgs[k]];
        }
      }
      assert registeredAsgs[..|registeredAsgs|] == registeredAsgs;
      registeredAsgs := updated;
    }

    /** Registers an explicitly configured group. */
    method RegisterExplicit(name: string, bounds: Bounds)
      requires Shown() && OnlyConfigured(contents, configured) && configured.Keys == explicitlyConfigured
      modifies this`registeredAsgs, this`contents, this`explicitlyConfigured, this`configured, registeredAsgs
      ensures Shown() && OnlyConfigured(contents, configured) && configured.Keys == explicitlyConfigured
      ensures configured == WithFirst(old(configured), name, bounds)
      ensures forall j :: 0 <= j < |registeredAsgs| ==>
                registeredAsgs[j] in old(registeredAsgs) || fresh(registeredAsgs[j])
    {
      ghost var before, given := contents, configured;
      var info := Info(name, bounds, 0, "");
      var asg := new Asg(info);
      explicitlyConfigured := explicitlyConfigured + {name};
      configured := WithFirst(configured, name, bounds);
      var registered := Register(asg);
      ExplicitKeeps(before, info, given);
    }

    /** Registers the explicitly configured groups; the first specification of a name counts. */
    method ParseExplicitAsgs(specs: seq<(string, Bounds)>) returns (ok: bool)
      requires registeredAsgs == [] && contents == [] && explicitlyConfigured == {} && configured == map[]
               && instanceToAsg == map[]
      modifies this`registeredAsgs, this`contents, this`explicitlyConfigured, this`configured
      ensures Valid() && OnlyConfigured(contents, configured)
      ensures ok <==> forall k :: 0 <= k < |specs| ==> WellFormed(specs[k].0, specs[k].1)
      ensures ok ==> configured == FirstOf(specs)
    {
      for k := 0 to |specs|
        invariant Shown() && OnlyConfigured(contents, configured) && configured.Keys == explicitlyConfigured
        invariant configured == FirstOf(specs[..k])
        invariant forall j :: 0 <= j < k ==> WellFormed(specs[j].0, specs[j].1)
        invariant forall j :: 0 <= j < |registeredAsgs| ==> fresh(registeredAsgs[j])
      {
        assert specs[..k + 1][..k] == specs[..k];
        if !WellFormed(specs[k].0, specs[k].1) {
          return false;
        }
        RegisterExplicit(specs[k].0, specs[k].1);
      }
      assert specs[..|specs|] == specs;
      return true;
    }

    /** The names to ask for: the configured ones in some order, then the discovered ones that are not configured. */
    method BuildAsgNames(discovered: seq<string>) returns (names: seq<string>)
      ensures Requested(explicitlyConfigured, discovered, names)
    {
      names := [];
      var todo := explicitlyConfigured;
      while todo != {}
        invariant todo <= explicitlyConfigured
        invariant (forall n :: n in names <==> n in explicitlyConfigured - todo)
                  && |names| + |todo| == |explicitlyConfigured|
      {
        var n :| n in todo;
        todo := todo - {n};
        names := names + [n];
      }
      ghost var configuredNames := names;
      for k := 0 to |discovered|
        invariant names == configuredNames + NotIn(discovered[..k], explicitlyConfigured)
      {
        assert discovered[..k + 1][..k] == discovered[..k];
        if discovered[k] !in explicitlyConfigured {
          names := names + [discovered[k]];
        }
      }
      assert discovered[..|discovered|] == discovered;
    }

    /** Points every instance of a group at it. */
    method IndexInstances(index: map<string, Asg>, asg: Asg, instances: seq<string>) returns (updated: map<string, Asg>)
      ensures forall i :: i in updated <==> i in index || i in instances
      ensures forall i :: i in updated ==> updated[i] == if i in instances then asg else index[i]
    {
      updated := index;
      for k := 0 to |instances|
        invariant forall i :: i in updated <==> i in index || i in instances[..k]
        invariant forall i :: i in updated ==> updated[i] == if i in instances[..k] then asg else index[i]
      {
        assert instances[..k + 1] == instances[..k] + [instances[k]];
        updated := updated[instances[k] := asg];
      }
      assert instances[..|instances|] == instances;
    }

    /** Registers one described group; its data must be well-formed. */
    method RegisterGroup(group: Group, groups: seq<Group>, k: nat, ghost before: seq<Info>) returns (registered: Asg)
      requires k < |groups| && group == groups[k]
      requires Shown() && DistinctRefs(contents) && contents == WithGroups(before, groups[..k], explicitlyConfigured)
      requires DistinctRefs(before) && configured.Keys == explicitlyConfigured && KeepsConfigured(before, configured)
      modifies this`registeredAsgs, this`contents, registeredAsgs
      ensures Shown() && DistinctRefs(contents) && contents == WithGroups(before, groups[..k + 1], explicitlyConfigured)
      ensures registered in registeredAsgs && registered.ref == group.name
      ensures forall a :: a in old(registeredAsgs) ==> a in registeredAsgs
      ensures forall j :: 0 <= j < |registeredAsgs| ==>
                registeredAsgs[j] in old(registeredAsgs) || fresh(registeredAsgs[j])
    {
      var asg := new Asg(FromAws(group));
      registered := Register(asg);
      assert groups[..k + 1][..k] == groups[..k];
      WithGroupsKeeps(before, groups[..k + 1], configured);
    }

    /** Drops the groups that are neither in `found` nor explicitly configured. */
    method UnregisterVanished(found: set<string>)
      requires Shown()
      modifies this`registeredAsgs, this`contents
      ensures Shown() && contents == Keeping(old(contents), explicitlyConfigured + found)
      ensures forall a :: a in registeredAsgs <==>
              a in old(registeredAsgs) && (a.ref in explicitlyConfigured || a.ref in found)
    {
      var all := registeredAsgs;
      ghost var dropped: set<string> := {};
      DroppingNothing(all);
      for k := 0 to |all|
        invariant registeredAsgs == Dropping(all, dropped)
        invariant forall r :: r in dropped ==> r !in found && r !in explicitlyConfigured
        invariant forall j :: 0 <= j < k && all[j].ref !in found && all[j].ref !in explicitlyConfigured ==>
                    all[j].ref in dropped
      {
        if all[k].ref !in found && all[k].ref !in explicitlyConfigured {
          DroppingTwice(all, dropped, all[k].ref);
          Unregister(all[k]);
          dropped := dropped + {all[k].ref};
        }
      }
      DroppingIsKeeping(all, dropped, explicitlyConfigured + found);
      contents := Values(registeredAsgs);
      forall a ensures a in registeredAsgs <==> a in all && (a.ref in explicitlyConfigured || a.ref in found) {
        DroppingExactly(all, dropped, a);
      }
    }

    /** Registers the described groups up to the first that is not well-formed, and indexes their instances. */
    method RegisterGroups(groups: seq<Group>)
      returns (ok: bool, found: set<string>, instances: map<string, seq<string>>, index: map<string, Asg>,
               ghost done: seq<Group>)
      requires Valid()
      modifies this`registeredAsgs, this`contents, registeredAsgs
      ensures Valid() && contents == WithGroups(old(contents), done, explicitlyConfigured)
      ensures done <= groups && forall g :: g in done ==> WellFormed(g.name, g.bounds)
      ensures if ok then done == groups
              else |done| < |groups| && !WellFormed(groups[|done|].name, groups[|done|].bounds)
      ensures found == Names(done) && instances == InstancesOf(done) && Indexed(index, OwnersOf(done), registeredAsgs)
      ensures forall a :: a in old(registeredAsgs) ==> a in registeredAsgs
    {
      ghost var before := contents;
      found, instances, index, done := {}, map[], map[], [];
      for k := 0 to |groups|
        invariant done == groups[..k] && forall g :: g in done ==> WellFormed(g.name, g.bounds)
        invariant Shown() && DistinctRefs(contents) && contents == WithGroups(before, done, explicitlyConfigured)
        invariant found == Names(done) && instances == InstancesOf(done)
                  && Indexed(index, OwnersOf(done), registeredAsgs)
        invariant forall a :: a in old(registeredAsgs) ==> a in registeredAsgs
        invariant forall j :: 0 <= j < |registeredAsgs| ==>
                    registeredAsgs[j] in old(registeredAsgs) || fresh(registeredAsgs[j])
      {
        var group := groups[k];
        if !WellFormed(group.name, group.bounds) {
          WithGroupsKeeps(before, done, configured);
          return false, found, instances, index, done;
        }
        found := found + {group.name};
        var asg := RegisterGroup(group, groups, k, before);
        instances := instances[group.name := group.instances];
        ghost var known := index;
        index := IndexInstances(index, asg, group.instances);
        IndexOneMore(groups, k, known, index, asg, registeredAsgs);
        done := groups[..k + 1];
      }
      assert groups[..|groups|] == groups;
      WithGroupsKeeps(before, done, configured);
      ok := true;
    }

    /** Leaves exactly the configured and the described groups. */
    method DropVanished(found: set<string>, ghost groups: seq<Group>, ghost before: seq<Info>)
      requires Shown() && contents == WithGroups(before, groups, explicitlyConfigured)
      requires DistinctRefs(before) && KeepsConfigured(before, configured) && configured.Keys == explicitlyConfigured
      requires found == Names(groups)
      modifies this`registeredAsgs, this`contents
      ensures Shown() && DistinctRefs(contents) && KeepsConfigured(contents, configured)
      ensures contents == Refreshed(before, groups, explicitlyConfigured)
      ensures forall a :: a in old(registeredAsgs) && a.ref in found ==> a in registeredAsgs
    {
      UnregisterVanished(found);
      RefreshedIsExact(before, groups, configured);
    }

    /** Completes a refresh once all groups are registered. */
    method Install(found: set<string>, instances: map<string, seq<string>>, index: map<string, Asg>,
                   ghost groups: seq<Group>, ghost before: seq<Info>)
      requires Shown() && contents == WithGroups(before, groups, explicitlyConfigured)
      requires DistinctRefs(before) && KeepsConfigured(before, configured) && configured.Keys == explicitlyConfigured
      requires found == Names(groups) && Indexed(index, OwnersOf(groups), registeredAsgs)
      modifies this`registeredAsgs, this`contents, this`asgToInstances, this`instanceToAsg
      ensures Valid() && contents == Refreshed(before, groups, explicitlyConfigured)
      ensures asgToInstances == instances && instanceToAsg == index && Indexed(index, OwnersOf(groups), registeredAsgs)
    {
      DropVanished(found, groups, before);
      asgToInstances := instances;
      instanceToAsg := index;
      OwnersAreNamed(groups);
    }

    /**
     * Brings the cache up to date. If the refresh fails, the instance indexes stay as they are and no
     * group is dropped; groups described before the failure have been registered.
     */
    method Regenerate(service: Service) returns (ok: bool, ghost names: seq<string>, ghost groups: seq<Group>)
      requires Valid()
      modifies this`registeredAsgs, this`contents, this`asgToInstances, this`instanceToAsg, registeredAsgs
      ensures Valid()
      ensures service.discovered.Some? ==> Requested(explicitlyConfigured, service.discovered.value, names)
      ensures ok ==> service.discovered.Some? && service.describe(names) == Some(groups)
      ensures ok ==> contents == Refreshed(old(contents), groups, explicitlyConfigured)
      ensures ok ==> asgToInstances == InstancesOf(groups) && Indexed(instanceToAsg, OwnersOf(groups), registeredAsgs)
      ensures !ok ==> asgToInstances == old(asgToInstances) && instanceToAsg == old(instanceToAsg)
      ensures !ok ==> contents == WithGroups(old(contents), groups, explicitlyConfigured)
    {
      names, groups := [], [];
      if service.discovered.None? {
        return false, names, groups;
      }
      var asked := BuildAsgNames(service.discovered.value);
      names := asked;
      var described := service.describe(asked);
      if described.None? {
        return false, names, groups;
      }
      ghost var before := contents;
      var found, instances, index;
      ok, found, instances, index, groups := RegisterGroups(described.value);
      if ok {
        Install(found, instances, index, groups, before);
      }
    }

    /**
     * Deletes instances of one group, one after the other, and counts the group down for each that
     * AWS terminated. An instance that is not cached, after a first one that is, is not handled: the
     * error message asks for the name of its group, which is nil.
     */
    method DeleteInstances(instances: seq<string>, terminates: string -> bool)
      returns (result: Deletion, ghost terminated: nat)
      requires Valid()
      modifies this`contents, registeredAsgs
      ensures Valid() && result == Verdict(instanceToAsg, instances, terminates)
      ensures terminated == if result in {Deleted, ServiceFailed} then Terminations(instances, terminates) else 0
      ensures forall a :: a in registeredAsgs ==> a.Value() == old(a.Value()).(curSize := old(a.curSize) -
                (if terminated > 0 && instances[0] in instanceToAsg && a == instanceToAsg[instances[0]] then terminated
                 else 0))
    {
      terminated := 0;
      if instances == [] {
        return Deleted, terminated;
      }
      if instances[0] !in instanceToAsg {
        return NotCached, terminated;
      }
      var commonAsg := instanceToAsg[instances[0]];
      for k := 0 to |instances|
        invariant forall j :: 0 <= j < k ==> instances[j] in instanceToAsg && instanceToAsg[instances[j]] == commonAsg
      {
        if instances[k] !in instanceToAsg {
          FirstForeignAt(instanceToAsg, instances, k);
          return NilDereference, terminated;
        }
        if instanceToAsg[instances[k]] != commonAsg {
          FirstForeignAt(instanceToAsg, instances, k);
          return DifferentGroups, terminated;
        }
      }
      ghost var before := contents;
      FirstForeignAt(instanceToAsg, instances, |instances|);
      result, terminated := TerminateAll(commonAsg, instances, terminates);
      SizesDoNotMatter(before, contents, configured);
    }

    method TerminateAll(asg: Asg, instances: seq<string>, terminates: string -> bool)
      returns (result: Deletion, ghost terminated: nat)
      requires Shown() && asg in registeredAsgs
      modifies this`contents, asg`curSize
      ensures Shown() && terminated == Terminations(instances, terminates)
      ensures result == if terminated == |instances| then Deleted else ServiceFailed
      ensures asg.curSize == old(asg.curSize) - terminated && SameButSizes(old(contents), contents)
    {
      terminated := 0;
      for k := 0 to |instances|
        invariant asg.curSize == old(asg.curSize) - k && terminated == k
        invariant forall j :: 0 <= j < k ==> terminates(instances[j])
      {
        if !terminates(instances[k]) {
          contents := Values(registeredAsgs);
          TerminationsAre(instances, terminates, k);
          return ServiceFailed, terminated;
        }
        asg.curSize := asg.curSize - 1;
        terminated := terminated + 1;
      }
      contents := Values(registeredAsgs);
      TerminationsAre(instances, terminates, |instances|);
      result := Deleted;
    }
  }

  ghost predicate SameButSizes(before: seq<Info>, after: seq<Info>) {
    |after| == |before| && forall k :: 0 <= k < |after| ==>
        after[k].ref == before[k].ref && after[k].bounds == before[k].bounds
  }

  lemma SizesDoNotMatter(before: seq<Info>, after: seq<Info>, configured: map<string, Bounds>)
    requires SameButSizes(before, after) && DistinctRefs(before) && KeepsConfigured(before, configured)
    ensures DistinctRefs(after) && KeepsConfigured(after, configured)
  {
    forall r | r in configured ensures Has(after, r) {
      var i :| 0 <= i < |before| && before[i].ref == r;
      assert after[i].ref == r;
    }
  }

  /** How many instances AWS terminates before the first one it refuses. */
  function Terminations(instances: seq<string>, terminates: string -> bool): nat {
    if instances == [] || !terminates(instances[0]) then 0 else 1 + Terminations(instances[1..], terminates)
  }

  lemma {:induction false} TerminationsAre(instances: seq<string>, terminates: string -> bool, k: nat)
    requires k <= |instances| && forall j :: 0 <= j < k ==> terminates(instances[j])
    requires k < |instances| ==> !terminates(instances[k])
    ensures Terminations(instances, terminates) == k
  {
    if k > 0 {
      TerminationsAre(instances[1..], terminates, k - 1);
    }
  }

  /** The first instance that is not in the group of the very first one. */
  function FirstForeign(index: map<string, Asg>, asg: Asg, instances: seq<string>): Option<string> {
    if instances == [] then None
    else if instances[0] in index && index[instances[0]] == asg then FirstForeign(index, asg, instances[1..])
    else Some(instances[0])
  }

  lemma {:induction false} FirstForeignAt(index: map<string, Asg>, instances: seq<string>, k: nat)
    requires instances != [] && instances[0] in index && k <= |instances|
    requires forall j :: 0 <= j < k ==> instances[j] in index && index[instances[j]] == index[instances[0]]
    requires k < |instances| ==> !(instances[k] in index && index[instances[k]] == index[instances[0]])
    ensures FirstForeign(index, index[instances[0]], instances) == if k < |instances| then Some(instances[k]) else None
  {
    FirstForeignFrom(index, index[instances[0]], instances, k);
  }

  lemma {:induction false} FirstForeignFrom(index: map<string, Asg>, asg: Asg, instances: seq<string>, k: nat)
    requires k <= |instances|
    requires forall j :: 0 <= j < k ==> instances[j] in index && index[instances[j]] == asg
    requires k < |instances| ==> !(instances[k] in index && index[instances[k]] == asg)
    ensures FirstForeign(index, asg, instances) == if k < |instances| then Some(instances[k]) else None
  {
    if k > 0 {
      FirstForeignFrom(index, asg, instances[1..], k - 1);
    }
  }

  function Verdict(index: map<string, Asg>, instances: seq<string>, terminates: string -> bool): Deletion {
    if instances == [] then Deleted
    else if instances[0] !in index then NotCached
    else
      match FirstForeign(index, index[instances[0]], instances)
      case Some(i) => if i in index then DifferentGroups else NilDereference
      case None => if Terminations(instances, terminates) == |instances| then Deleted else ServiceFailed
  }

  /** The instances before position `k` are all in the group of the first one. */
  ghost predicate CommonUpTo(index: map<string, Asg>, instances: seq<string>, k: nat) {
    && k <= |instances|
    && forall j :: 0 <= j < k ==>
        instances[j] in index && instances[0] in index && index[instances[j]] == index[instances[0]]
  }

  /** Deleting runs into the nil group exactly if an uncached instance follows cached ones of one group. */
  lemma NilDereferenceIff(index: map<string, Asg>, instances: seq<string>, terminates: string -> bool)
    ensures Verdict(index, instances, terminates) == NilDereference <==>
            exists k :: 0 < k < |instances| && CommonUpTo(index, instances, k) && instances[k] !in index
  {
    if k :| 0 < k < |instances| && CommonUpTo(index, instances, k) && instances[k] !in index {
      assert instances[0] in index;
      FirstForeignAt(index, instances, k);
    }
    if Verdict(index, instances, terminates) == NilDereference {
      var k := FirstForeignIndex(index, index[instances[0]], instances);
      assert CommonUpTo(index, instances, k);
    }
  }

  lemma {:induction false} FirstForeignIndex(index: map<string, Asg>, asg: Asg, instances: seq<string>) returns (k: nat)
    requires FirstForeign(index, asg, instances).Some?
    ensures k < |instances| && instances[k] == FirstForeign(index, asg, instances).value
    ensures forall j :: 0 <= j < k ==> instances[j] in index && index[instances[j]] == asg
  {
    if instances[0] in index && index[instances[0]] == asg {
      k := FirstForeignIndex(index, asg, instances[1..]);
      k := k + 1;
    } else {
      k := 0;
    }
  }
}
