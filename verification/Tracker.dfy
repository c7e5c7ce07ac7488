/**
 * The usage tracker of the drain simulator (simulator/tracker.go).
 *
 * A tracker is a bounded, two-way index of "the drain simulation of node A relied on node B". The
 * classes below are the mutable index, proved against functions on its value; module TrackerRuns
 * says how close that value stays to the exact relation.
 */
module Tracker {

  const MAX_USAGE_RECORDED: nat := 50

  /** The value of one usage record. */
  datatype Record = Record(usingTooMany: bool, using: map<string, int>,
                           usedByTooMany: bool, usedBy: map<string, int>)
  {
    predicate Idle() {
      !usingTooMany && !usedByTooMany && using == map[] && usedBy == map[]
    }
  }

  type Usage = map<string, Record>

  const EMPTY_RECORD := Record(false, map[], false, map[])

  function RecordOf(u: Usage, node: string): Record {
    if node in u then u[node] else EMPTY_RECORD
  }

  // ----- what the operations do to the value of the index

  function WithUsing(r: Record, target: string, timestamp: int): Record {
    if |r.using| >= MAX_USAGE_RECORDED then r.(usingTooMany := true)
    else r.(using := r.using[target := timestamp])
  }

  function WithUsedBy(r: Record, user: string, timestamp: int): Record {
    if |r.usedBy| >= MAX_USAGE_RECORDED then r.(usedByTooMany := true)
    else r.(usedBy := r.usedBy[user := timestamp])
  }

  function AfterRegister(u: Usage, a: string, b: string, timestamp: int): Usage {
    var u1 := u[a := WithUsing(RecordOf(u, a), b, timestamp)];
    u1[b := WithUsedBy(RecordOf(u1, b), a, timestamp)]
  }

  /** `r`, the record of `key`, once `node` (whose own record is `gone`) has been unregistered. */
  function Forget(key: string, r: Record, node: string, gone: Record): Record {
    r.(usedBy := if key in gone.using then r.usedBy - {node} else r.usedBy,
       using := if key in gone.usedBy then r.using - {node} else r.using)
  }

  function AfterUnregister(u: Usage, node: string): Usage {
    if node in u then map k | k in u && k != node :: Forget(k, u[k], node, u[node]) else u
  }

  function NotBefore<K>(m: map<K, int>, cutoff: int): map<K, int> {
    map k | k in m && m[k] >= cutoff :: m[k]
  }

  function Expire(r: Record, cutoff: int): Record {
    r.(using := if r.usingTooMany then r.using else NotBefore(r.using, cutoff),
       usedBy := if r.usedByTooMany then r.usedBy else NotBefore(r.usedBy, cutoff))
  }

  function AfterCleanUp(u: Usage, cutoff: int): Usage {
    map k | k in u && !Expire(u[k], cutoff).Idle() :: Expire(u[k], cutoff)
  }

  /** `u` with every record in `done` already expired. */
  function ExpiredAt(u: Usage, done: set<string>, cutoff: int): Usage {
    map k | k in u :: if k in done then Expire(u[k], cutoff) else u[k]
  }

  function IdleAfter(u: Usage, done: set<string>, cutoff: int): set<string> {
    set k | k in done && k in u && Expire(u[k], cutoff).Idle()
  }

  lemma ExpireOneMore(u: Usage, done: set<string>, key: string, cutoff: int)
    requires key in u && key !in done
    ensures ExpiredAt(u, done, cutoff)[key := Expire(u[key], cutoff)] == ExpiredAt(u, done + {key}, cutoff)
    ensures IdleAfter(u, done + {key}, cutoff) ==
            IdleAfter(u, done, cutoff) + (if Expire(u[key], cutoff).Idle() then {key} else {})
  {
  }

  lemma DeleteIdle(u: Usage, cutoff: int)
    ensures ExpiredAt(u, u.Keys, cutoff) - IdleAfter(u, u.Keys, cutoff) == AfterCleanUp(u, cutoff)
  {
  }

  function UserForgotten(u: Usage, keys: set<string>, node: string): Usage {
    map k | k in u :: if k in keys then u[k].(usedBy := u[k].usedBy - {node}) else u[k]
  }

  function TargetForgotten(u: Usage, keys: set<string>, node: string): Usage {
    map k | k in u :: if k in keys then u[k].(using := u[k].using - {node}) else u[k]
  }

  /** Unregistering goes through the recorded targets first, then through the recorded users that are left. */
  lemma UnregisterInTwoPasses(u: Usage, node: string)
    requires node in u
    ensures
      var u1 := UserForgotten(u, u[node].using.Keys, node);
      TargetForgotten(u1, u1[node].usedBy.Keys, node) - {node} == AfterUnregister(u, node)
  {
  }

  /** Every node recorded as a user of one of `targets`. */
  function SharersOn(u: Usage, targets: set<string>): set<string> {
    set target, user | target in targets && target in u && user in u[target].usedBy :: user
  }

  /** Some recorded target of `node` dropped users because it had too many. */
  predicate TargetSaturated(u: Usage, node: string) {
    exists target :: target in RecordOf(u, node).using && target in u && u[target].usedByTooMany
  }

  /** The keys that removing `node` deletes, beside `node`, from a utilization map holding `keys`. */
  function Invalidated(u: Usage, node: string, keys: set<string>): set<string> {
    if RecordOf(u, node).usingTooMany || TargetSaturated(u, node) then keys
    else SharersOn(u, RecordOf(u, node).using.Keys)
  }

  // ----- the mutable index

  class UsageRecord {
    var usingTooMany: bool
    var using: map<string, int>
    var usedByTooMany: bool
    var usedBy: map<string, int>

    ghost function View(): Record
      reads this
    {
      Record(usingTooMany, using, usedByTooMany, usedBy)
    }

    constructor ()
      ensures View() == EMPTY_RECORD
    {
      usingTooMany, using, usedByTooMany, usedBy := false, map[], false, map[];
    }

    method AddUsing(target: string, timestamp: int)
      modifies this
      ensures View() == WithUsing(old(View()), target, timestamp)
    {
      if |using| >= MAX_USAGE_RECORDED {
        usingTooMany := true;
      } else {
        using := using[target := timestamp];
      }
    }

    method AddUsedBy(user: string, timestamp: int)
      modifies this
      ensures View() == WithUsedBy(old(View()), user, timestamp)
    {
      if |usedBy| >= MAX_USAGE_RECORDED {
        usedByTooMany := true;
      } else {
        usedBy := usedBy[user := timestamp];
      }
    }

    predicate IsIdle()
      reads this
      ensures IsIdle() == View().Idle()
    {
      !usingTooMany && !usedByTooMany && |using| == 0 && |usedBy| == 0
    }

    method DropUsing(node: string)
      modifies this
      ensures View() == old(View()).(using := old(using) - {node})
    {
      using := using - {node};
    }

    method DropUsedBy(node: string)
      modifies this
      ensures View() == old(View()).(usedBy := old(usedBy) - {node})
    {
      usedBy := usedBy - {node};
    }

    method FilterOld(cutoff: int)
      modifies this
      ensures View() == Expire(old(View()), cutoff)
    {
      if !usingTooMany {
        using := FilterOutOld(using, cutoff);
      }
      if !usedByTooMany {
        usedBy := FilterOutOld(usedBy, cutoff);
      }
    }
  }

  /** Deletes the entries of `timestamps` that are older than `cutoff`. */
  method FilterOutOld(timestamps: map<string, int>, cutoff: int) returns (kept: map<string, int>)
    ensures kept == NotBefore(timestamps, cutoff)
  {
    kept := timestamps;
    var todo := timestamps.Keys;
    while todo != {}
      invariant todo <= timestamps.Keys
      invariant kept == map k | k in timestamps && (k in todo || timestamps[k] >= cutoff) :: timestamps[k]
    {
      var key :| key in todo;
      if timestamps[key] < cutoff {
        kept := kept - {key};
      }
      todo := todo - {key};
    }
  }

  class UsageTracker {
    var usage: map<string, UsageRecord>
    /** The value of the index, and the objects it is made of. */
    ghost var contents: Usage
    ghost var Repr: set<object>

    ghost predicate Valid()
      reads this, Repr
      ensures Valid() ==> this in Repr
    {
      this in Repr && usage.Values <= Repr && Unshared() && contents == View()
    }

    /** No two nodes share a record. */
    ghost predicate Unshared()
      reads this
    {
      forall a, b :: a in usage && b in usage && a != b ==> usage[a] != usage[b]
    }

    ghost function View(): Usage
      reads this, usage.Values
    {
      map k | k in usage :: usage[k].View()
    }

    constructor ()
      ensures Valid() && fresh(Repr) && contents == map[]
    {
      usage, contents, Repr := map[], map[], {this};
    }

    /** The record of `node`, added to the index if there was none. */
    method RecordFor(node: string) returns (record: UsageRecord)
      requires Unshared()
      modifies this`usage
      ensures Unshared() && node in usage && record == usage[node]
      ensures fresh(usage.Values - old(usage.Values))
      ensures View() == old(View())[node := RecordOf(old(View()), node)]
      ensures node in old(usage) ==> usage == old(usage)
      ensures node !in old(usage) ==> fresh(record) && usage == old(usage)[node := record]
    {
      if node in usage {
        record := usage[node];
      } else {
        record := new UsageRecord();
        usage := usage[node := record];
      }
    }

    /** Writing the record of `node` alone changes the index at `node` alone. */
    twostate lemma OneRecordWritten(node: string)
      requires old(Unshared()) && node in usage && usage == old(usage)
      requires forall r :: r in usage.Values && r != usage[node] ==> unchanged(r)
      ensures View() == old(View())[node := usage[node].View()]
    {
      forall k | k in usage && k != node
        ensures usage[k].View() == old(usage[k].View())
      {
        assert usage[k] in usage.Values;
      }
    }

    /** The half of a registration that writes the record of the node being drained. */
    method NoteUsing(nodeA: string, nodeB: string, timestamp: int)
      requires Unshared()
      modifies this`usage, usage.Values
      ensures Unshared() && fresh(usage.Values - old(usage.Values))
      ensures View() == old(View())[nodeA := WithUsing(RecordOf(old(View()), nodeA), nodeB, timestamp)]
    {
      ghost var u := View();
      var record := RecordFor(nodeA);
      label Found:
      assert record.View() == RecordOf(u, nodeA) by {
        assert View()[nodeA] == record.View();
      }
      record.AddUsing(nodeB, timestamp);
      OneRecordWritten@Found(nodeA);
      assert View() == u[nodeA := record.View()];
    }

    /** The half of a registration that writes the record of the node being relied on. */
    method NoteUsedBy(nodeB: string, nodeA: string, timestamp: int)
      requires Unshared()
      modifies this`usage, usage.Values
      ensures Unshared() && fresh(usage.Values - old(usage.Values))
      ensures View() == old(View())[nodeB := WithUsedBy(RecordOf(old(View()), nodeB), nodeA, timestamp)]
    {
      ghost var u := View();
      var record := RecordFor(nodeB);
      label Found:
      assert record.View() == RecordOf(u, nodeB) by {
        assert View()[nodeB] == record.View();
      }
      record.AddUsedBy(nodeA, timestamp);
      OneRecordWritten@Found(nodeB);
      assert View() == u[nodeB := record.View()];
    }

    /** Both halves, on the records alone. */
    method Note(nodeA: string, nodeB: string, timestamp: int)
      requires Unshared()
      modifies this`usage, usage.Values
      ensures Unshared() && fresh(usage.Values - old(usage.Values))
      ensures View() == AfterRegister(old(View()), nodeA, nodeB, timestamp)
    {
      NoteUsing(nodeA, nodeB, timestamp);
      NoteUsedBy(nodeB, nodeA, timestamp);
    }

    method RegisterUsage(nodeA: string, nodeB: string, timestamp: int)
      requires Valid()
      modifies Repr
      ensures Valid() && fresh(Repr - old(Repr))
      ensures contents == AfterRegister(old(contents), nodeA, nodeB, timestamp)
    {
      Note(nodeA, nodeB, timestamp);
      contents, Repr := View(), Repr + usage.Values;
    }

    /** Deletes `node` from the users recorded for every key in `keys`. */
    method ForgetUser(keys: set<string>, node: string)
      requires Unshared()
      modifies usage.Values
      ensures View() == UserForgotten(old(View()), keys, node)
    {
      var todo := keys;
      while todo != {}
        invariant todo <= keys
        invariant View() == UserForgotten(old(View()), keys - todo, node)
      {
        var key :| key in todo;
        label Before:
        if key in usage {
          usage[key].DropUsedBy(node);
          OneRecordWritten@Before(key);
        }
        todo := todo - {key};
      }
      assert keys - todo == keys;
    }

    /** Deletes `node` from the targets recorded for every key in `keys`. */
    method ForgetTarget(keys: set<string>, node: string)
      requires Unshared()
      modifies usage.Values
      ensures View() == TargetForgotten(old(View()), keys, node)
    {
      var todo := keys;
      while todo != {}
        invariant todo <= keys
        invariant View() == TargetForgotten(old(View()), keys - todo, node)
      {
        var key :| key in todo;
        label Before:
        if key in usage {
          usage[key].DropUsing(node);
          OneRecordWritten@Before(key);
        }
        todo := todo - {key};
      }
      assert keys - todo == keys;
    }

    /** Deletes `node` from the records that its own record points to. */
    method ForgetEverywhere(node: string)
      requires Unshared() && node in usage
      modifies usage.Values
      ensures View() - {node} == AfterUnregister(old(View()), node)
    {
      ForgetUser(usage[node].using.Keys, node);
      ForgetTarget(usage[node].usedBy.Keys, node);
      UnregisterInTwoPasses(old(View()), node);
    }

    method Unregister(node: string)
      requires Valid()
      modifies Repr
      ensures Valid() && Repr == old(Repr)
      ensures contents == AfterUnregister(old(contents), node)
    {
      if node in usage {
        ForgetEverywhere(node);
        Delete({node});
        contents := View();
      }
    }

    /** Expires the record of `key`; the answer tells whether nothing is left in it. */
    method FilterRecord(key: string, cutoff: int) returns (idle: bool)
      requires Unshared() && key in usage
      modifies usage.Values
      ensures View() == old(View())[key := Expire(old(View())[key], cutoff)]
      ensures idle == Expire(old(View())[key], cutoff).Idle()
    {
      usage[key].FilterOld(cutoff);
      OneRecordWritten(key);
      idle := usage[key].IsIdle();
    }

    /** Expires every record; the answer is the keys that have nothing left. */
    method FilterAll(cutoff: int) returns (toDelete: set<string>)
      requires Unshared()
      modifies usage.Values
      ensures View() - toDelete == AfterCleanUp(old(View()), cutoff)
    {
      ghost var before := View();
      toDelete := {};
      var todo := usage.Keys;
      while todo != {}
        invariant todo <= before.Keys
        invariant View() == ExpiredAt(before, before.Keys - todo, cutoff)
        invariant toDelete == IdleAfter(before, before.Keys - todo, cutoff)
      {
        var key :| key in todo;
        ghost var done := before.Keys - todo;
        var idle := FilterRecord(key, cutoff);
        ExpireOneMore(before, done, key, cutoff);
        if idle {
          toDelete := toDelete + {key};
        }
        todo := todo - {key};
        assert before.Keys - todo == done + {key};
      }
      assert before.Keys - todo == before.Keys;
      DeleteIdle(before, cutoff);
    }

    method Delete(keys: set<string>)
      requires Unshared()
      modifies this`usage
      ensures Unshared() && usage == old(usage) - keys
      ensures View() == old(View()) - keys
    {
      usage := usage - keys;
    }

    method CleanUp(cutoff: int)
      requires Valid()
      modifies Repr
      ensures Valid() && Repr == old(Repr)
      ensures contents == AfterCleanUp(old(contents), cutoff)
    {
      var toDelete := FilterAll(cutoff);
      Delete(toDelete);
      contents := View();
    }
  }

  /** What removing `node` is going to delete from `utilization`, apart from `node` itself. */
  method KeysToRemove(tracker: UsageTracker, node: string, utilization: map<string, int>) returns (keys: set<string>)
    requires tracker.Valid()
    ensures utilization.Keys * (keys + {node}) ==
            utilization.Keys * (Invalidated(tracker.contents, node, utilization.Keys) + {node})
  {
    keys := {};
    ghost var u := tracker.contents;
    if node in tracker.usage {
      var mainRecord := tracker.usage[node];
      if mainRecord.usingTooMany {
        keys := utilization.Keys;
      } else {
        var todo := mainRecord.using.Keys;
        while todo != {}
          invariant todo <= u[node].using.Keys
          invariant keys == SharersOn(u, u[node].using.Keys - todo)
          invariant forall t :: t in u[node].using.Keys - todo && t in u ==> !u[t].usedByTooMany
        {
          var usedNode :| usedNode in todo;
          if usedNode in tracker.usage {
            var usedNodeRecord := tracker.usage[usedNode];
            if usedNodeRecord.usedByTooMany {
              assert TargetSaturated(u, node);
              keys := utilization.Keys;
              return;
            }
            keys := keys + usedNodeRecord.usedBy.Keys;
            assert u[usedNode].usedBy == usedNodeRecord.usedBy;
          }
          todo := todo - {usedNode};
        }
      }
    }
  }

  /** Removes `node` from the tracker and returns what is left of the utilization map. */
  method RemoveNodeFromTracker(tracker: UsageTracker, node: string, utilization: map<string, int>)
    returns (left: map<string, int>)
    requires tracker.Valid()
    modifies tracker.Repr
    ensures tracker.Valid() && tracker.Repr == old(tracker.Repr)
    ensures tracker.contents == AfterUnregister(old(tracker.contents), node)
    ensures left == utilization - (Invalidated(old(tracker.contents), node, utilization.Keys) + {node})
  {
    var keysToRemove := KeysToRemove(tracker, node, utilization);
    ghost var invalidated := Invalidated(tracker.contents, node, utilization.Keys);
    tracker.Unregister(node);
    left := utilization - {node} - keysToRemove;
    forall k | k in utilization
      ensures k in left <==> k !in invalidated + {node}
    {
      assert k in utilization.Keys * (keysToRemove + {node}) <==> k in utilization.Keys * (invalidated + {node});
    }
  }
}
