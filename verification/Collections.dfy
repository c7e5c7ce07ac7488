/** Small facts about sets, sequences and their multisets. */
module Collections {

  function Without<T>(s: seq<T>, i: nat): seq<T>
    requires i < |s|
  {
    s[..i] + s[i + 1..]
  }

  lemma WithoutMultiset<T>(s: seq<T>, i: nat)
    requires i < |s|
    ensures multiset(Without(s, i)) == multiset(s) - multiset{s[i]}
  {
    assert s == s[..i] + [s[i]] + s[i + 1..];
    assert multiset(s) == multiset(s[..i]) + multiset{s[i]} + multiset(s[i + 1..]);
  }

  /** Where the last element of `a` sits in its permutation `b`. */
  lemma MatchLast<T>(a: seq<T>, b: seq<T>) returns (i: nat)
    requires a != [] && multiset(a) == multiset(b)
    ensures i < |b| && b[i] == a[|a| - 1]
    ensures multiset(a[..|a| - 1]) == multiset(Without(b, i))
  {
    var n := |a| - 1;
    assert a[n] in multiset(b);
    assert a[n] in b;
    i :| 0 <= i < |b| && b[i] == a[n];
    WithoutMultiset(a, n);
    WithoutMultiset(b, i);
    assert Without(a, n) == a[..n];
  }

  /** A set that is not empty has an element. */
  lemma Element<T>(s: set<T>) returns (x: T)
    requires s != {}
    ensures x in s
  {
    x :| x in s;
  }

  lemma {:induction false} SubsetSize<T>(a: set<T>, b: set<T>)
    requires a <= b
    ensures |a| <= |b|
  {
    if a != {} {
      var x :| x in a;
      SubsetSize(a - {x}, b - {x});
    }
  }

  function Flatten<T>(bins: seq<seq<T>>): seq<T> {
    if bins == [] then [] else Flatten(bins[..|bins| - 1]) + bins[|bins| - 1]
  }

  lemma OneMore(n: nat, c: int)
    ensures (n + 1) * c == n * c + c
  {
  }

  lemma {:induction false} InFlatten<T>(bins: seq<seq<T>>, i: nat, x: T)
    requires i < |bins| && x in bins[i]
    ensures x in Flatten(bins)
  {
    if i < |bins| - 1 {
      InFlatten(bins[..|bins| - 1], i, x);
    }
  }

  lemma CancelUnion<T>(a: multiset<T>, x: multiset<T>, y: multiset<T>)
    requires a + x == a + y
    ensures x == y
  {
    assert x == (a + x) - a;
    assert y == (a + y) - a;
  }

  lemma AddOneSize<T>(s: set<T>, x: T)
    ensures |s + {x}| == if x in s then |s| else |s| + 1
  {
    if x in s {
      assert s + {x} == s;
    }
  }
}
