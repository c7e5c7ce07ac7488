/**
 * "Since when" bookkeeping: a map that remembers, for everything seen in the latest observation,
 * the time from which it has been seen without interruption. The registry's incorrect group sizes
 * and unregistered nodes, and the unneeded nodes of the scale-down logic, are all kept this way.
 */
module FirstSeen {

  datatype Seen<V> = Seen(what: V, since: int)

  datatype Event<K, V> =
    | Observe(time: int, seen: map<K, V>)
    | Forget(keys: set<K>)
    | Reset

  /** The entry for `k`, seen as `v` now: the known one if it says the same, else a new one. */
  function Noted<K, V(==)>(known: map<K, Seen<V>>, k: K, v: V, now: int): Seen<V> {
    if k in known && known[k].what == v then known[k] else Seen(v, now)
  }

  function Track<K, V(==)>(known: map<K, Seen<V>>, e: Event<K, V>): map<K, Seen<V>> {
    match e
    case Observe(time, seen) =>
      map k | k in seen :: Noted(known, k, seen[k], time)
    case Forget(keys) => known - keys
    case Reset => map[]
  }

  function After<K, V(==)>(events: seq<Event<K, V>>): map<K, Seen<V>> {
    if events == [] then map[] else Track(After(events[..|events| - 1]), events[|events| - 1])
  }

  /** Event `e` leaves "`k` is currently seen as `v`" standing. */
  predicate Confirms<K, V(==)>(e: Event<K, V>, k: K, v: V) {
    match e
    case Observe(_, seen) => k in seen && seen[k] == v
    case Forget(keys) => k !in keys
    case Reset => false
  }

  /** From the observation at `start` on, every observation showed `k` as `v` and nothing made it forgotten. */
  predicate SeenSince<K, V(==)>(events: seq<Event<K, V>>, k: K, v: V, start: nat) {
    && start < |events| && events[start].Observe?
    && forall i :: start <= i < |events| ==> Confirms(events[i], k, v)
  }

  /** `start` begins the longest such stretch. */
  predicate StreakStart<K, V(==)>(events: seq<Event<K, V>>, k: K, v: V, start: nat) {
    SeenSince(events, k, v, start) && forall s :: 0 <= s < start ==> !SeenSince(events, k, v, s)
  }

  lemma SeenSinceSnoc<K, V>(events: seq<Event<K, V>>, e: Event<K, V>, k: K, v: V, s: nat)
    ensures SeenSince(events + [e], k, v, s) <==>
            Confirms(e, k, v) && (SeenSince(events, k, v, s) || (s == |events| && e.Observe?))
  {
    if s <= |events| {
      forall i | s <= i < |events| ensures (events + [e])[i] == events[i] {}
      assert (events + [e])[|events|] == e;
    }
    if SeenSince(events + [e], k, v, s) && s < |events| {
      forall i | s <= i < |events| ensures Confirms(events[i], k, v) {
        assert Confirms((events + [e])[i], k, v);
      }
    }
  }

  /** An entry carries the time at which the longest current stretch of its value began. */
  lemma {:induction false} EntryIsStreakStart<K, V>(events: seq<Event<K, V>>, k: K) returns (start: nat)
    requires k in After(events)
    ensures StreakStart(events, k, After(events)[k].what, start)
    ensures events[start].time == After(events)[k].since
  {
    var n := |events| - 1;
    var before, e := events[..n], events[n];
    var v := After(events)[k].what;
    assert events == before + [e];
    if k in After(before) && After(before)[k].what == v {
      start := EntryIsStreakStart(before, k);
    } else {
      start := n;
      NoEntryNoStreak(before, k, v);
    }
    forall s ensures SeenSince(events, k, v, s) <==>
      Confirms(e, k, v) && (SeenSince(before, k, v, s) || (s == n && e.Observe?))
    {
      SeenSinceSnoc(before, e, k, v, s);
    }
  }

  /** Without an entry for that value there is no current stretch of it. */
  lemma {:induction false} NoEntryNoStreak<K, V>(events: seq<Event<K, V>>, k: K, v: V)
    requires !(k in After(events) && After(events)[k].what == v)
    ensures forall s :: !SeenSince(events, k, v, s)
  {
    if events != [] {
      var n := |events| - 1;
      var before, e := events[..n], events[n];
      assert events == before + [e];
      if !(k in After(before) && After(before)[k].what == v) {
        NoEntryNoStreak(before, k, v);
      }
      forall s ensures !SeenSince(events, k, v, s) {
        SeenSinceSnoc(before, e, k, v, s);
      }
    }
  }

  /** An entry is there exactly when some stretch is, and its time is exactly the start of the longest one. */
  lemma SinceIsExact<K, V>(events: seq<Event<K, V>>, k: K, v: V, since: int)
    ensures (k in After(events) && After(events)[k] == Seen(v, since)) <==>
            (exists start: nat :: StreakStart(events, k, v, start) && events[start].time == since)
  {
    if k in After(events) && After(events)[k].what == v {
      var start := EntryIsStreakStart(events, k);
      forall s: nat | StreakStart(events, k, v, s) ensures s == start {
        assert SeenSince(events, k, v, s) && SeenSince(events, k, v, start);
      }
    } else {
      NoEntryNoStreak(events, k, v);
      assert forall s: nat :: !StreakStart(events, k, v, s);
    }
  }
}
