/** Sums over finite sets, in whatever order. */
module SumOver {

  ghost function Sum<K>(keys: set<K>, f: K -> real): real {
    if keys == {} then 0.0
    else
      var k :| k in keys;
      f(k) + Sum(keys - {k}, f)
  }

  /** Any element can be taken out first. */
  lemma {:induction false} SumTakeOut<K>(keys: set<K>, f: K -> real, k: K)
    requires k in keys
    ensures Sum(keys, f) == f(k) + Sum(keys - {k}, f)
    decreases keys
  {
    var first :| first in keys && Sum(keys, f) == f(first) + Sum(keys - {first}, f);
    if first != k {
      SumTakeOut(keys - {first}, f, k);
      SumTakeOut(keys - {k}, f, first);
      assert keys - {first} - {k} == keys - {k} - {first};
    }
  }

  lemma SumInsert<K>(keys: set<K>, f: K -> real, k: K)
    requires k !in keys
    ensures Sum(keys + {k}, f) == Sum(keys, f) + f(k)
  {
    SumTakeOut(keys + {k}, f, k);
    assert keys + {k} - {k} == keys;
  }

  lemma {:induction false} SumSame<K>(keys: set<K>, f: K -> real, g: K -> real)
    requires forall k :: k in keys ==> f(k) == g(k)
    ensures Sum(keys, f) == Sum(keys, g)
    decreases keys
  {
    if keys != {} {
      var k :| k in keys;
      SumTakeOut(keys, f, k);
      SumTakeOut(keys, g, k);
      SumSame(keys - {k}, f, g);
    }
  }

  /** The sum may leave out elements that contribute nothing. */
  lemma {:induction false} SumSupport<K>(keys: set<K>, support: set<K>, f: K -> real)
    requires support <= keys && forall k :: k in keys && k !in support ==> f(k) == 0.0
    ensures Sum(keys, f) == Sum(support, f)
    decreases keys
  {
    if keys != support {
      var k :| k in keys && k !in support;
      SumTakeOut(keys, f, k);
      SumSupport(keys - {k}, support, f);
    }
  }

  lemma {:induction false} SumUnion<K>(a: set<K>, b: set<K>, f: K -> real)
    requires a !! b
    ensures Sum(a + b, f) == Sum(a, f) + Sum(b, f)
    decreases b
  {
    if b == {} {
      assert a + b == a;
    } else {
      var k :| k in b;
      SumUnion(a, b - {k}, f);
      SumInsert(a + (b - {k}), f, k);
      SumInsert(b - {k}, f, k);
      assert a + (b - {k}) + {k} == a + b;
      assert b - {k} + {k} == b;
    }
  }

  /** The elements that belong to group `g`. */
  ghost function Fiber<K, G>(keys: set<K>, group: K -> G, g: G): set<K> {
    set k | k in keys && group(k) == g
  }

  /** Summing group by group gives the same as summing all at once. */
  lemma {:induction false} SumByGroups<K, G>(keys: set<K>, group: K -> G, groups: set<G>, f: K -> real,
                                             total: G -> real)
    requires forall k :: k in keys ==> group(k) in groups
    requires forall g :: g in groups ==> total(g) == Sum(Fiber(keys, group, g), f)
    ensures Sum(groups, total) == Sum(keys, f)
    decreases groups
  {
    if groups == {} {
      assert keys == {};
    } else {
      var g :| g in groups;
      var fiber := Fiber(keys, group, g);
      var rest := keys - fiber;
      forall h | h in groups - {g} ensures total(h) == Sum(Fiber(rest, group, h), f) {
        assert Fiber(rest, group, h) == Fiber(keys, group, h);
      }
      SumByGroups(rest, group, groups - {g}, f, total);
      SumTakeOut(groups, total, g);
      SumUnion(rest, fiber, f);
      assert rest + fiber == keys;
    }
  }
}
