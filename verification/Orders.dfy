/** Taking the keys of a map one after the other, in an order that is not known. */
module Orders {
  import opened Collections
  import opened Wrappers

  /** `order` takes each of `keys` once. */
  ghost predicate OrderOf<K>(order: seq<K>, keys: set<K>) {
    multiset(order) == multiset(keys)
  }

  lemma OrderSnoc<K>(order: seq<K>, keys: set<K>, key: K)
    requires OrderOf(order, keys) && key !in keys
    ensures OrderOf(order + [key], keys + {key})
  {
  }

  /** The other keys may follow in any order. */
  lemma {:induction false} OrderOfAll<K>(order: seq<K>, keys: set<K>, more: set<K>) returns (all: seq<K>)
    requires OrderOf(order, keys) && keys !! more
    ensures order <= all && OrderOf(all, keys + more)
    decreases |more|
  {
    if more == {} {
      all := order;
      assert keys + more == keys;
    } else {
      var key := Element(more);
      OrderSnoc(order, keys, key);
      all := OrderOfAll(order + [key], keys + {key}, more - {key});
      assert keys + {key} + (more - {key}) == keys + more;
    }
  }

  lemma OrderFront<K>(order: seq<K>, keys: set<K>)
    requires OrderOf(order, keys) && order != []
    ensures order[|order| - 1] in keys && OrderOf(order[..|order| - 1], keys - {order[|order| - 1]})
  {
    var front, last := order[..|order| - 1], order[|order| - 1];
    assert order == front + [last];
    assert last in multiset(order);
    forall x ensures multiset(front)[x] == multiset(keys - {last})[x] {
      assert multiset(order)[x] == multiset(front)[x] + (if x == last then 1 else 0);
      assert multiset(keys)[x] == if x in keys then 1 else 0;
    }
  }

  lemma NoKeys<K>(order: seq<K>, keys: set<K>)
    requires OrderOf(order, keys) && order == []
    ensures keys == {}
  {
    assert |multiset(keys)| == 0;
  }

  // ----- steps that may fail

  type Stepper<!S, !K> = (S, K) -> Result<S>

  /** The steps for the keys, in that order; a failure ends them. */
  function Fold<S, K>(step: Stepper<S, K>, start: S, order: seq<K>): Result<S> {
    if order == [] then Success(start)
    else
      match Fold(step, start, order[..|order| - 1])
      case Failure => Failure
      case Success(s) => step(s, order[|order| - 1])
  }

  lemma FoldSnoc<S, K>(step: Stepper<S, K>, start: S, order: seq<K>, key: K, s: S)
    requires Fold(step, start, order) == Success(s)
    ensures Fold(step, start, order + [key]) == step(s, key)
  {
    assert (order + [key])[..|order|] == order;
  }

  lemma {:induction false} FailureStays<S, K>(step: Stepper<S, K>, start: S, order: seq<K>, all: seq<K>)
    requires Fold(step, start, order) == Failure && order <= all
    ensures Fold(step, start, all) == Failure
  {
    if order < all {
      assert order <= all[..|all| - 1];
      FailureStays(step, start, order, all[..|all| - 1]);
    } else {
      assert order == all;
    }
  }

  /** `result` comes of taking all the keys in some order. */
  ghost predicate Outcome<S, K(!new)>(step: Stepper<S, K>, start: S, keys: set<K>, result: Result<S>) {
    exists order :: OrderOf(order, keys) && Fold(step, start, order) == result
  }

  /** How far the steps have got. */
  ghost predicate StepsReach<S, K>(step: Stepper<S, K>, start: S, order: seq<K>, done: set<K>, s: S) {
    OrderOf(order, done) && Fold(step, start, order) == Success(s)
  }

  /** One more step leads further, or settles that the outcome is a failure. */
  lemma StepsGoOn<S, K(!new)>(step: Stepper<S, K>, start: S, order: seq<K>, done: set<K>, s: S, key: K, keys: set<K>)
    requires StepsReach(step, start, order, done, s) && key !in done && done + {key} <= keys
    ensures match step(s, key)
            case Success(next) => StepsReach(step, start, order + [key], done + {key}, next)
            case Failure => Outcome(step, start, keys, Failure)
  {
    FoldSnoc(step, start, order, key, s);
    OrderSnoc(order, done, key);
    if step(s, key).Failure? {
      var all := OrderOfAll(order + [key], done + {key}, keys - done - {key});
      assert done + {key} + (keys - done - {key}) == keys;
      FailureStays(step, start, order + [key], all);
    }
  }
}
