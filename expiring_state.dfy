/**
 * The state object that the in-memory stores keep apart from themselves so
 * that the repeating garbage-collection timer does not keep the store alive:
 * the values (`cache`), the expiry second of every key stored with a TTL
 * (`cacheTimeouts`) and whether that expiry index has to be re-sorted before
 * the next sweep (`isSortNeeded`). src/LocalCache.php, src/ArrayCache.php and
 * lib/ArrayCache.php all use the same three fields and the same sweep.
 */
module ExpiringState {
  import opened Wrappers
  import opened PhpArrays

  /** The expiry index after `\asort($cacheTimeouts)`: same entries, ordered by expiry second. */
  function Sorted(t: OrderedMap<int>): (r: OrderedMap<int>)
    requires t.Valid()
    ensures r.Valid() && r.values == t.values && SortedBy(r.order, r.values)
    ensures multiset(r.order) == multiset(t.order)
  {
    SortByCorrect(t.order, t.values);
    OrderedMap(SortBy(t.order, t.values), t.values)
  }

  /** The keys whose recorded expiry second lies before `now`. Keys without a TTL never expire. */
  function ExpiredKeys(t: OrderedMap<int>, now: int): set<Key> {
    set k | k in t.values && now > t.values[k]
  }

  /** An entry with expiry second `e` is still served at `now` when `now <= e`. */
  predicate IsExpired(t: OrderedMap<int>, key: Key, now: int) {
    key in t.values && now > t.values[key]
  }

  /** What a read of `key` at second `now` answers: the value, unless it is absent or expired. */
  function Lookup(c: OrderedMap<string>, t: OrderedMap<int>, key: Key, now: int): Option<string> {
    if key in c.values && !IsExpired(t, key, now) then Some(c.values[key]) else None
  }

  /** The size bound that a limit of at least one entry imposes. */
  ghost predicate WithinLimit(c: OrderedMap<string>, limit: Option<int>) {
    limit.Some? && limit.value >= 1 ==> c.Count() <= limit.value
  }

  /** Whether storing `key` shifts out an entry: the other entries already number exactly `limit`. */
  predicate Evicts(c: OrderedMap<string>, key: Key, limit: Option<int>) {
    var rest := Without(c.order, {key});
    limit == Some(|rest|) && |rest| > 0
  }

  /**
   * The values array after a successful `set`: the key is unset and
   * re-appended as the newest entry, after the oldest other entry has been
   * shifted out if the others already fill the limit.
   */
  function Replace(c: OrderedMap<string>, key: Key, value: string, limit: Option<int>): (r: OrderedMap<string>)
    requires c.Valid()
    ensures r.Valid()
    ensures r.order == (if Evicts(c, key, limit) then Without(c.order, {key})[1..] else Without(c.order, {key})) + [key]
    ensures key in r.values && r.values[key] == value
    ensures forall k :: k in r.values && k != key ==> k in c.values && r.values[k] == c.values[k]
    ensures forall k :: k in c.values && k != key && k !in r.values ==>
              Evicts(c, key, limit) && k == Without(c.order, {key})[0]
  {
    var rest := c.Unset(key);
    var kept := if limit == Some(rest.Count()) then rest.Shift() else rest;
    kept.Assign(key, value)
  }

  /**
   * A key that is not stored yet joins as the newest entry; the oldest entry
   * is shifted out exactly when the stored entries already number `limit`.
   */
  lemma ReplaceNewKey(c: OrderedMap<string>, key: Key, value: string, limit: Option<int>)
    requires c.Valid() && key !in c.values
    ensures Replace(c, key, value, limit).order ==
              (if limit == Some(c.Count()) && c.Count() > 0 then c.order[1..] else c.order) + [key]
  {
    WithoutMembers(c.order, {key});
  }

  /** A store that respects its size limit still does after a `set`. */
  lemma ReplaceWithinLimit(c: OrderedMap<string>, key: Key, value: string, limit: Option<int>)
    requires c.Valid() && WithinLimit(c, limit)
    ensures WithinLimit(Replace(c, key, value, limit), limit)
  {
    UnsetCount(c, key);
    var rest := c.Unset(key);
    assert key !in rest.values;
    var kept := if limit == Some(rest.Count()) then rest.Shift() else rest;
    assert kept.Count() <= rest.Count();
    assert limit.Some? && limit.value >= 1 ==> kept.Count() < limit.value;
    assert key !in kept.values;
    assert Replace(c, key, value, limit).Count() == kept.Count() + 1;
  }

  /**
   * The expiry index after a successful `set` at second `now`: no TTL
   * removes the key's expiry, a TTL records expiry second `now + ttl`.
   */
  function WithTtl(t: OrderedMap<int>, key: Key, ttl: Option<int>, now: int): (r: OrderedMap<int>)
    ensures t.Valid() ==> r.Valid()
    ensures forall k :: k != key ==> (k in r.values <==> k in t.values)
    ensures forall k :: k != key && k in t.values ==> r.values[k] == t.values[k]
  {
    if ttl.None? then t.Unset(key) else t.Assign(key, now + ttl.value)
  }

  /**
   * Right after a successful `set`, the stored value is what a read returns
   * up to and including its expiry second, and nothing after it; without a
   * TTL it is returned at every later second.
   */
  lemma StoredValueVisible(c: OrderedMap<string>, t: OrderedMap<int>, key: Key, value: string,
                           ttl: Option<int>, now: int, limit: Option<int>, later: int)
    requires c.Valid()
    ensures Lookup(Replace(c, key, value, limit), WithTtl(t, key, ttl, now), key, later) ==
            if ttl.None? || later <= now + ttl.value then Some(value) else None
  {
  }

  /** A `set` leaves every other key that is still stored reading as before, at every second. */
  lemma StoreLeavesOthers(c: OrderedMap<string>, t: OrderedMap<int>, key: Key, value: string,
                          ttl: Option<int>, now: int, limit: Option<int>, k: Key, later: int)
    requires c.Valid() && k != key && k in Replace(c, key, value, limit).values
    ensures Lookup(Replace(c, key, value, limit), WithTtl(t, key, ttl, now), k, later) == Lookup(c, t, k, later)
  {
  }

  /** Unsetting keys keeps a sorted expiry index sorted. */
  lemma UnsetAllSorted(t: OrderedMap<int>, dead: set<Key>)
    ensures SortedBy(t.order, t.values) ==> SortedBy(t.UnsetAll(dead).order, t.UnsetAll(dead).values)
  {
    if SortedBy(t.order, t.values) {
      WithoutSorted(t.order, dead, t.values);
    }
  }

  /** The keys of the first `i` entries of `s`: those a sweep has already visited. */
  function Visited(s: seq<Key>, i: nat): set<Key>
    requires i <= |s|
  {
    set j | 0 <= j < i :: s[j]
  }

  /** Every one of the first `n` keys of the index has expired at `now`. */
  ghost predicate ExpiredBefore(t: OrderedMap<int>, n: nat, now: int)
    requires n <= |t.order|
  {
    n == 0 || (ExpiredBefore(t, n - 1, now) && t.order[n - 1] in t.values && now > t.values[t.order[n - 1]])
  }

  /** Spelled out index by index: each of the first `n` keys has an expiry before `now`. */
  lemma {:induction false} ExpiredBeforeAll(t: OrderedMap<int>, n: nat, now: int)
    requires n <= |t.order| && ExpiredBefore(t, n, now)
    ensures forall j :: 0 <= j < n ==> t.order[j] in t.values && now > t.values[t.order[j]]
  {
    if n > 0 {
      ExpiredBeforeAll(t, n - 1, now);
    }
  }

  /**
   * A sweep over a sorted expiry index that stops at the first entry not yet
   * expired has visited exactly the expired keys.
   */
  lemma SweepStopsAtFirstLive(t: OrderedMap<int>, now: int, i: nat)
    requires t.Valid() && SortedBy(t.order, t.values) && i <= |t.order|
    requires ExpiredBefore(t, i, now)
    requires i == |t.order| || now <= t.values[t.order[i]]
    ensures Visited(t.order, i) == ExpiredKeys(t, now)
  {
    ExpiredBeforeAll(t, i, now);
    forall k | k in ExpiredKeys(t, now) ensures k in Visited(t.order, i) {
      assert k in t.order;
      var m :| 0 <= m < |t.order| && t.order[m] == k;
    }
  }

  /** Unsetting one more key after a batch is unsetting the larger batch. */
  lemma UnsetAfterUnsetAll<V>(m: OrderedMap<V>, dead: set<Key>, key: Key)
    ensures m.UnsetAll(dead).Unset(key) == m.UnsetAll(dead + {key})
  {
    WithoutWithout(m.order, dead, {key});
    assert (m.values - dead) - {key} == m.values - (dead + {key});
  }

  /** `m` after `unset` of the first `i` keys of `s`, one at a time, in order. */
  function UnsetFirst<V>(m: OrderedMap<V>, s: seq<Key>, i: nat): OrderedMap<V>
    requires i <= |s|
  {
    if i == 0 then m else UnsetFirst(m, s, i - 1).Unset(s[i - 1])
  }

  /** Unsetting the first `i` keys one at a time unsets exactly the keys visited. */
  lemma {:induction false} UnsetFirstIsUnsetAll<V>(m: OrderedMap<V>, s: seq<Key>, i: nat)
    requires i <= |s|
    ensures UnsetFirst(m, s, i) == m.UnsetAll(Visited(s, i))
  {
    if i == 0 {
      assert Visited(s, 0) == {};
      WithoutMembers(m.order, {});
      assert m.values - {} == m.values;
    } else {
      UnsetFirstIsUnsetAll(m, s, i - 1);
      UnsetAfterUnsetAll(m, Visited(s, i - 1), s[i - 1]);
      assert Visited(s, i) == Visited(s, i - 1) + {s[i - 1]};
    }
  }

  /** What the sweep leaves once it has unset exactly the expired keys. */
  lemma SweptState(c: OrderedMap<string>, t: OrderedMap<int>, now: int)
    requires c.Valid() && t.Valid() && SortedBy(t.order, t.values)
    ensures var dead := ExpiredKeys(t, now);
      c.UnsetAll(dead).Valid() && t.UnsetAll(dead).Valid() &&
      SortedBy(t.UnsetAll(dead).order, t.UnsetAll(dead).values) &&
      forall k :: k in t.UnsetAll(dead).values ==> now <= t.UnsetAll(dead).values[k]
  {
    UnsetAllSorted(t, ExpiredKeys(t, now));
  }

  class CacheState {
    var cache: OrderedMap<string>
    var cacheTimeouts: OrderedMap<int>
    var isSortNeeded: bool

    /** Both arrays are well formed, and the expiry index is sorted whenever no re-sort is pending. */
    ghost predicate Valid()
      reads this
    {
      cache.Valid() && cacheTimeouts.Valid() &&
      (!isSortNeeded ==> SortedBy(cacheTimeouts.order, cacheTimeouts.values))
    }

    constructor ()
      ensures Valid()
      ensures cache == Empty() && cacheTimeouts == Empty() && !isSortNeeded
    {
      cache := Empty();
      cacheTimeouts := Empty();
      isSortNeeded := false;
    }

    /**
     * The sweep the event loop runs every few seconds, at second `now`: sort
     * the expiry index if needed, then walk it from the earliest expiry,
     * unsetting each entry that has expired and stopping at the first one
     * that has not. Because the index is sorted, that removes exactly the
     * expired entries; values stored without a TTL are never touched.
     */
    method CollectGarbage(now: int)
      requires Valid()
      modifies this
      ensures Valid() && !isSortNeeded
      ensures cache == old(cache).UnsetAll(ExpiredKeys(old(cacheTimeouts), now))
      ensures cacheTimeouts ==
        (if old(isSortNeeded) then Sorted(old(cacheTimeouts)) else old(cacheTimeouts))
          .UnsetAll(ExpiredKeys(old(cacheTimeouts), now))
      ensures forall k :: k in cacheTimeouts.values ==> now <= cacheTimeouts.values[k]
    {
      if isSortNeeded {
        cacheTimeouts := Sorted(cacheTimeouts);
        isSortNeeded := false;
      }
      SweepSorted(now);
    }

    /** The sweep over an expiry index that is already sorted. */
    method SweepSorted(now: int)
      requires Valid() && !isSortNeeded
      modifies this
      ensures Valid() && !isSortNeeded
      ensures cache == old(cache).UnsetAll(ExpiredKeys(old(cacheTimeouts), now))
      ensures cacheTimeouts == old(cacheTimeouts).UnsetAll(ExpiredKeys(old(cacheTimeouts), now))
      ensures forall k :: k in cacheTimeouts.values ==> now <= cacheTimeouts.values[k]
    {
      var visited := SweepLoop(now);
      UnsetFirstIsUnsetAll(old(cache), old(cacheTimeouts).order, visited);
      UnsetFirstIsUnsetAll(old(cacheTimeouts), old(cacheTimeouts).order, visited);
      SweepStopsAtFirstLive(old(cacheTimeouts), now, visited);
      SweptState(old(cache), old(cacheTimeouts), now);
    }

    /**
     * The `foreach` loop of the sweep: walks a copy of the expiry index in
     * order, unsetting each expired entry from both arrays, and stops at the
     * first entry that has not expired. Answers how many entries it unset.
     */
    method SweepLoop(now: int) returns (visited: nat)
      requires forall j :: 0 <= j < |cacheTimeouts.order| ==> cacheTimeouts.order[j] in cacheTimeouts.values
      modifies this
      ensures visited <= |old(cacheTimeouts).order| && isSortNeeded == old(isSortNeeded)
      ensures ExpiredBefore(old(cacheTimeouts), visited, now)
      ensures visited == |old(cacheTimeouts).order| || now <= old(cacheTimeouts).values[old(cacheTimeouts).order[visited]]
      ensures cache == UnsetFirst(old(cache), old(cacheTimeouts).order, visited)
      ensures cacheTimeouts == UnsetFirst(old(cacheTimeouts), old(cacheTimeouts).order, visited)
    {
      var snapshot := cacheTimeouts;  // foreach walks a copy of the array
      ghost var start := cache;
      visited := 0;
      while visited < |snapshot.order|
        invariant visited <= |snapshot.order| && isSortNeeded == old(isSortNeeded)
        invariant ExpiredBefore(snapshot, visited, now)
        invariant cache == UnsetFirst(start, snapshot.order, visited)
        invariant cacheTimeouts == UnsetFirst(snapshot, snapshot.order, visited)
      {
        var key := snapshot.order[visited];
        if now <= snapshot.values[key] {
          break;
        }
        Expire(key);
        visited := visited + 1;
      }
    }

    /** Unsets `key` in both arrays. */
    method Expire(key: Key)
      modifies this
      ensures cache == old(cache).Unset(key) && cacheTimeouts == old(cacheTimeouts).Unset(key)
      ensures isSortNeeded == old(isSortNeeded)
    {
      cache := cache.Unset(key);
      cacheTimeouts := cacheTimeouts.Unset(key);
    }

    /** The destructor's cleanup: both arrays are emptied. */
    method Clear()
      requires Valid()
      modifies this
      ensures Valid()
      ensures cache == Empty() && cacheTimeouts == Empty() && isSortNeeded == old(isSortNeeded)
    {
      cache := Empty();
      cacheTimeouts := Empty();
    }
  }
}
