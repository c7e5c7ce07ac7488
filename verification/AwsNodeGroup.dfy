/**
 * How a node group of the AWS provider deletes nodes (cloudprovider/aws/aws_cloud_provider.go): it
 * screens them against the cache of groups before it asks the cache to delete their instances.
 */
module AwsNodeGroup {
  import opened AsgCache
  import opened Wrappers

  /** A node and the instance its provider ID names, if the ID has the right form. */
  datatype Node = Node(name: string, instance: Option<string>)

  datatype Belonging = WrongId | UnknownGroup | Known(belongs: bool)

  datatype NodesDeletion = MinSizeReached | Refused(node: Node) | Passed(deletion: Deletion)

  function BelongingOf(index: map<string, Asg>, ref: string, node: Node): Belonging {
    if node.instance.None? then WrongId
    else if node.instance.value !in index then UnknownGroup
    else Known(index[node.instance.value].ref == ref)
  }

  /** The first node that the screen refuses. */
  function FirstRefused(index: map<string, Asg>, ref: string, nodes: seq<Node>): Option<Node> {
    if nodes == [] then None
    else if BelongingOf(index, ref, nodes[0]) == Known(true) then FirstRefused(index, ref, nodes[1..])
    else Some(nodes[0])
  }

  lemma {:induction false} FirstRefusedAt(index: map<string, Asg>, ref: string, nodes: seq<Node>, k: nat)
    requires k <= |nodes| && forall j :: 0 <= j < k ==> BelongingOf(index, ref, nodes[j]) == Known(true)
    requires k < |nodes| ==> BelongingOf(index, ref, nodes[k]) != Known(true)
    ensures FirstRefused(index, ref, nodes) == if k < |nodes| then Some(nodes[k]) else None
  {
    if k > 0 {
      FirstRefusedAt(index, ref, nodes[1..], k - 1);
    }
  }

  /** All instances are known to be in the group. */
  predicate Screened(index: map<string, Asg>, ref: string, instances: seq<string>) {
    forall i :: i in instances ==> i in index && index[i].ref == ref
  }

  /** The index leads to groups with different refs, as that of a valid cache does. */
  ghost predicate LeadsTo(index: map<string, Asg>, asgs: seq<Asg>) {
    && (forall i :: i in index ==> index[i] in asgs)
    && (forall j, k :: 0 <= j < k < |asgs| ==> asgs[j].ref != asgs[k].ref)
  }

  /**
   * With an index that has not changed since the screen, screened instances are all of one group: the
   * deletion ends with its first refused termination or deletes them all. It does not report several
   * groups or an uncached instance, and does not come to the nil group.
   */
  lemma ScreenedAreCommon(index: map<string, Asg>, asgs: seq<Asg>, ref: string, instances: seq<string>,
                          terminates: string -> bool)
    requires LeadsTo(index, asgs) && Screened(index, ref, instances)
    ensures Verdict(index, instances, terminates) == if Terminations(instances, terminates) == |instances| then Deleted
            else ServiceFailed
  {
    if instances != [] {
      forall j | 0 <= j < |instances| ensures instances[j] in index && index[instances[j]] == index[instances[0]] {
        assert instances[j] in instances && instances[0] in instances;
      }
      FirstForeignAt(index, instances, |instances|);
    }
  }

  /** Without the screen, two instances of which only the first is cached lead to the nil group. */
  lemma UnscreenedMayFail(asg: Asg, first: string, second: string)
    requires first != second
    ensures Verdict(map[first := asg], [first, second], i => true) == NilDereference
    ensures !Screened(map[first := asg], asg.ref, [first, second])
  {
    FirstForeignAt(map[first := asg], [first, second], 1);
    assert second in [first, second];
  }

  /** With the screen it takes a refresh after it, and more than one node. */
  lemma RefreshAfterScreenMayFail(asg: Asg, first: string, second: string)
    requires first != second
    ensures Screened(map[first := asg, second := asg], asg.ref, [first, second])
    ensures Verdict(map[first := asg], [first, second], i => true) == NilDereference
  {
    UnscreenedMayFail(asg, first, second);
  }

  /** One node never leads there, screened or not. */
  lemma OneInstanceNeverFails(index: map<string, Asg>, instance: string, terminates: string -> bool)
    ensures Verdict(index, [instance], terminates) !in {NilDereference, DifferentGroups}
  {
    NilDereferenceIff(index, [instance], terminates);
    if instance in index {
      FirstForeignAt(index, [instance], 1);
    }
  }

  class AwsNodeGroup {
    const awsManager: AsgCache
    const asg: Asg

    constructor (awsManager: AsgCache, asg: Asg)
      ensures this.awsManager == awsManager && this.asg == asg
    {
      this.awsManager, this.asg := awsManager, asg;
    }

    method Belongs(node: Node) returns (belonging: Belonging)
      ensures belonging == BelongingOf(awsManager.instanceToAsg, asg.ref, node)
    {
      if node.instance.None? {
        return WrongId;
      }
      if node.instance.value !in awsManager.instanceToAsg {
        return UnknownGroup;
      }
      var targetAsg := awsManager.instanceToAsg[node.instance.value];
      return Known(targetAsg.ref == asg.ref);
    }

    /** The instances of the nodes, if all of them are in the group. */
    method Screen(nodes: seq<Node>) returns (refused: Option<Node>, refs: seq<string>)
      ensures refused == FirstRefused(awsManager.instanceToAsg, asg.ref, nodes)
      ensures refused.None? ==> Screened(awsManager.instanceToAsg, asg.ref, refs) && |refs| == |nodes|
      ensures refused.None? ==> forall k :: 0 <= k < |nodes| ==> nodes[k].instance == Some(refs[k])
    {
      refs := [];
      for k := 0 to |nodes|
        invariant |refs| == k
        invariant forall j :: 0 <= j < k ==> BelongingOf(awsManager.instanceToAsg, asg.ref, nodes[j]) == Known(true)
        invariant forall j :: 0 <= j < k ==> nodes[j].instance == Some(refs[j])
      {
        var belonging := Belongs(nodes[k]);
        if belonging != Known(true) {
          FirstRefusedAt(awsManager.instanceToAsg, asg.ref, nodes, k);
          return Some(nodes[k]), refs;
        }
        refs := refs + [nodes[k].instance.value];
      }
      FirstRefusedAt(awsManager.instanceToAsg, asg.ref, nodes, |nodes|);
      forall i | i in refs ensures i in awsManager.instanceToAsg && awsManager.instanceToAsg[i].ref == asg.ref {
        var k :| 0 <= k < |refs| && refs[k] == i;
        assert BelongingOf(awsManager.instanceToAsg, asg.ref, nodes[k]) == Known(true);
      }
      refused := None;
    }

    /**
     * Deletes nodes unless the group is at its minimum or one of them is not in it. What is passed on
     * to the cache is always of one group, and the group counts down by the terminations.
     */
    method DeleteNodes(nodes: seq<Node>, terminates: string -> bool)
      returns (result: NodesDeletion, ghost refs: seq<string>)
      requires awsManager.Valid()
      modifies awsManager`contents, awsManager.registeredAsgs
      ensures awsManager.Valid()
      ensures result.MinSizeReached? <==> old(asg.curSize) <= old(asg.bounds.min)
      ensures result.Refused? ==> Some(result.node) == FirstRefused(awsManager.instanceToAsg, asg.ref, nodes)
      ensures result.Passed? ==>
                && FirstRefused(awsManager.instanceToAsg, asg.ref, nodes) == None && |refs| == |nodes|
                && (forall k :: 0 <= k < |nodes| ==> nodes[k].instance == Some(refs[k]))
                && result.deletion == if Terminations(refs, terminates) == |refs| then Deleted else ServiceFailed
      ensures forall a :: a in awsManager.registeredAsgs ==> a.Value() == old(a.Value()).(curSize := old(a.curSize) -
                (if result.Passed? && a.ref == asg.ref then Terminations(refs, terminates) else 0))
    {
      refs := [];
      if asg.curSize <= asg.bounds.min {
        return MinSizeReached, refs;
      }
      var refused, instances := Screen(nodes);
      refs := instances;
      if refused.Some? {
        return Refused(refused.value), refs;
      }
      RefsDiffer(awsManager.contents, awsManager.registeredAsgs);
      ScreenedAreCommon(awsManager.instanceToAsg, awsManager.registeredAsgs, asg.ref, instances, terminates);
      var deletion;
      ghost var terminated;
      deletion, terminated := awsManager.DeleteInstances(instances, terminates);
      result := Passed(deletion);
    }
  }

  lemma RefsDiffer(contents: seq<Info>, asgs: seq<Asg>)
    requires contents == Values(asgs) && DistinctRefs(contents)
    ensures forall j, k :: 0 <= j < k < |asgs| ==> asgs[j].ref != asgs[k].ref
  {
    forall j, k | 0 <= j < k < |asgs| ensures asgs[j].ref != asgs[k].ref {
      assert contents[j].ref == asgs[j].ref && contents[k].ref == asgs[k].ref;
    }
  }
}
