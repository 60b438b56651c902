/**
 * PHP arrays with string keys, as the caches use them: insertion-ordered
 * dictionaries. `unset` removes a key and keeps the others in order,
 * `$a[$k] = $v` overwrites in place or appends, `array_shift` drops the
 * oldest entry and `asort` reorders the entries by value.
 */
module PhpArrays {

  /** Keys are opaque strings (PHP's coercion of numeric strings to ints is not modelled). */
  type Key = string

  ghost predicate Distinct(s: seq<Key>) {
    forall i, j :: 0 <= i < j < |s| ==> s[i] != s[j]
  }

  /** The keys of `s` that are not in `dead`, in their original order. */
  function Without(s: seq<Key>, dead: set<Key>): (r: seq<Key>)
    ensures |r| <= |s|
  {
    if s == [] then []
    else if s[0] in dead then Without(s[1..], dead)
    else [s[0]] + Without(s[1..], dead)
  }

  /** `Without` keeps exactly the keys of `s` that are not in `dead`, and all of `s` when none is. */
  lemma {:induction false} WithoutMembers(s: seq<Key>, dead: set<Key>)
    ensures forall k :: k in Without(s, dead) <==> k in s && k !in dead
    ensures (forall k :: k in s ==> k !in dead) ==> Without(s, dead) == s
  {
    if s != [] {
      WithoutMembers(s[1..], dead);
      assert forall k :: k in s <==> k == s[0] || k in s[1..];
      if forall k :: k in s ==> k !in dead {
        assert [s[0]] + s[1..] == s;
      }
    }
  }

  /** The tail of a duplicate-free sequence is duplicate-free and does not hold its head. */
  lemma DistinctTail(s: seq<Key>)
    requires s != [] && Distinct(s)
    ensures Distinct(s[1..]) && s[0] !in s[1..]
  {
    forall a, b | 0 <= a < b < |s[1..]| ensures s[1..][a] != s[1..][b] {
      assert s[1..][a] == s[a + 1] && s[1..][b] == s[b + 1];
    }
    forall j | 0 <= j < |s[1..]| ensures s[1..][j] != s[0] {
      assert s[1..][j] == s[j + 1];
    }
  }

  /** Filtering a duplicate-free sequence leaves it duplicate-free. */
  lemma {:induction false} WithoutDistinct(s: seq<Key>, dead: set<Key>)
    ensures Distinct(s) ==> Distinct(Without(s, dead))
  {
    if s != [] && Distinct(s) {
      DistinctTail(s);
      WithoutDistinct(s[1..], dead);
      WithoutMembers(s[1..], dead);
      if s[0] !in dead {
        var w := Without(s[1..], dead);
        assert s[0] !in w;
        var r := [s[0]] + w;
        forall a, b | 0 <= a < b < |r| ensures r[a] != r[b] {
          if a == 0 {
            assert r[b] == w[b - 1];
          } else {
            assert r[a] == w[a - 1] && r[b] == w[b - 1];
          }
        }
      }
    }
  }

  /** Removing a key that occurs only at index `i` splices it out and leaves the rest in place. */
  lemma {:induction false} WithoutSplice(s: seq<Key>, i: nat)
    requires i < |s| && s[i] !in s[..i] && s[i] !in s[i + 1..]
    ensures Without(s, {s[i]}) == s[..i] + s[i + 1..]
  {
    var t := s[1..];
    if i == 0 {
      WithoutMembers(t, {s[0]});
      assert t == s[i + 1..] && s[..0] + s[1..] == t;
      assert Without(s, {s[0]}) == Without(t, {s[0]});
    } else {
      assert s[0] != s[i] by {
        assert s[0] in s[..i];
      }
      assert Without(s, {s[i]}) == [s[0]] + Without(t, {s[i]});
      assert t[i - 1] == s[i] && t[i - 1] !in t[..i - 1] && t[i - 1] !in t[i..] by {
        assert t[..i - 1] == s[1..i] && t[i..] == s[i + 1..];
        assert forall k :: k in s[1..i] ==> k in s[..i];
      }
      WithoutSplice(t, i - 1);
      assert [s[0]] + (t[..i - 1] + t[i..]) == s[..i] + s[i + 1..] by {
        assert s[..i] == [s[0]] + t[..i - 1] && s[i + 1..] == t[i..];
      }
    }
  }

  /** Removing two sets of keys one after the other removes their union. */
  lemma {:induction false} WithoutWithout(s: seq<Key>, a: set<Key>, b: set<Key>)
    ensures Without(Without(s, a), b) == Without(s, a + b)
  {
    if s != [] {
      WithoutWithout(s[1..], a, b);
      if s[0] !in a {
        assert ([s[0]] + Without(s[1..], a))[1..] == Without(s[1..], a);
      }
    }
  }

  /** The number of distinct keys of a duplicate-free sequence is its length. */
  lemma {:induction false} DistinctCardinality(s: seq<Key>)
    requires Distinct(s)
    ensures |set k | k in s| == |s|
  {
    if s != [] {
      DistinctCardinality(s[1..]);
      assert (set k | k in s) == {s[0]} + (set k | k in s[1..]);
    }
  }

  /** `e` orders the keys of `s` by non-decreasing value. */
  ghost predicate SortedBy(s: seq<Key>, e: map<Key, int>) {
    forall i, j :: 0 <= i < j < |s| && s[i] in e && s[j] in e ==> e[s[i]] <= e[s[j]]
  }

  /** Dropping keys keeps a sorted sequence sorted. */
  lemma {:induction false} WithoutSorted(s: seq<Key>, dead: set<Key>, e: map<Key, int>)
    requires SortedBy(s, e)
    ensures SortedBy(Without(s, dead), e)
  {
    if s != [] {
      var t := s[1..];
      SortedTail(s, e);
      WithoutSorted(t, dead, e);
      WithoutMembers(t, dead);
      var w := Without(t, dead);
      if s[0] !in dead {
        assert Without(s, dead) == [s[0]] + w;
        ConsSorted(s[0], w, e);
      }
    }
  }

  /** A key whose value bounds those of a sorted sequence from below can go in front of it. */
  lemma ConsSorted(k: Key, w: seq<Key>, e: map<Key, int>)
    requires SortedBy(w, e)
    requires k in e ==> forall x :: x in w && x in e ==> e[k] <= e[x]
    ensures SortedBy([k] + w, e)
  {
    var r := [k] + w;
    forall i, j | 0 <= i < j < |r| && r[i] in e && r[j] in e ensures e[r[i]] <= e[r[j]] {
      assert r[j] == w[j - 1];
      if i > 0 {
        assert r[i] == w[i - 1];
      }
    }
  }

  /** The tail of a sorted sequence is sorted, and its head's value is a lower bound for it. */
  lemma SortedTail(s: seq<Key>, e: map<Key, int>)
    requires s != [] && SortedBy(s, e)
    ensures SortedBy(s[1..], e)
    ensures s[0] in e ==> forall x :: x in s[1..] && x in e ==> e[s[0]] <= e[x]
  {
    forall i, j | 0 <= i < j < |s[1..]| && s[1..][i] in e && s[1..][j] in e
      ensures e[s[1..][i]] <= e[s[1..][j]]
    {
      assert s[1..][i] == s[i + 1] && s[1..][j] == s[j + 1];
    }
    forall x | x in s[1..] && x in e && s[0] in e ensures e[s[0]] <= e[x] {
      var m :| 0 <= m < |s[1..]| && s[1..][m] == x;
      assert s[m + 1] == x;
    }
  }

  /** Inserts `k` before the first key whose value is not smaller. */
  function InsertBy(k: Key, s: seq<Key>, e: map<Key, int>): (r: seq<Key>)
    requires k in e && forall x :: x in s ==> x in e
    ensures forall x :: x in r <==> x == k || x in s
  {
    if s == [] || e[k] <= e[s[0]] then [k] + s else [s[0]] + InsertBy(k, s[1..], e)
  }

  /** Insertion sort by value: the `\asort` call. Entries with equal values keep their order. */
  function SortBy(s: seq<Key>, e: map<Key, int>): (r: seq<Key>)
    requires forall x :: x in s ==> x in e
    ensures forall x :: x in r <==> x in s
  {
    if s == [] then [] else InsertBy(s[0], SortBy(s[1..], e), e)
  }

  /** Inserting into a sorted sequence keeps it sorted. */
  lemma {:induction false} InsertBySorted(k: Key, s: seq<Key>, e: map<Key, int>)
    requires k in e && (forall x :: x in s ==> x in e) && SortedBy(s, e)
    ensures SortedBy(InsertBy(k, s, e), e)
  {
    if s == [] {
      ConsSorted(k, s, e);
    } else {
      SortedTail(s, e);
      if e[k] <= e[s[0]] {
        assert [s[0]] + s[1..] == s;
        ConsSorted(k, s, e);
      } else {
        InsertBySorted(k, s[1..], e);
        ConsSorted(s[0], InsertBy(k, s[1..], e), e);
      }
    }
  }

  /** Inserting adds exactly one occurrence of the key. */
  lemma {:induction false} InsertByPermutes(k: Key, s: seq<Key>, e: map<Key, int>)
    requires k in e && (forall x :: x in s ==> x in e)
    ensures multiset(InsertBy(k, s, e)) == multiset(s) + multiset{k}
  {
    if s != [] && e[s[0]] < e[k] {
      InsertByPermutes(k, s[1..], e);
      assert s == [s[0]] + s[1..];
    }
  }

  /** Inserting a new key into a duplicate-free sequence leaves it duplicate-free. */
  lemma {:induction false} InsertByDistinct(k: Key, s: seq<Key>, e: map<Key, int>)
    requires k in e && (forall x :: x in s ==> x in e)
    requires k !in s && Distinct(s)
    ensures Distinct(InsertBy(k, s, e))
  {
    var r := InsertBy(k, s, e);
    if s == [] || e[k] <= e[s[0]] {
      forall i, j | 0 <= i < j < |r| ensures r[i] != r[j] {
        if i > 0 { assert r[i] == s[i - 1] && r[j] == s[j - 1]; }
        else { assert r[j] == s[j - 1]; }
      }
    } else {
      DistinctTail(s);
      InsertByDistinct(k, s[1..], e);
      var w := InsertBy(k, s[1..], e);
      assert r == [s[0]] + w;
      forall i, j | 0 <= i < j < |r| ensures r[i] != r[j] {
        if i > 0 { assert r[i] == w[i - 1] && r[j] == w[j - 1]; }
        else { assert r[j] == w[j - 1]; }
      }
    }
  }

  /** `\asort` leaves the keys ordered by value. */
  lemma {:induction false} SortBySorted(s: seq<Key>, e: map<Key, int>)
    requires forall x :: x in s ==> x in e
    ensures SortedBy(SortBy(s, e), e)
  {
    if s != [] {
      SortBySorted(s[1..], e);
      InsertBySorted(s[0], SortBy(s[1..], e), e);
    }
  }

  /** `\asort` only rearranges: every key keeps its number of occurrences. */
  lemma {:induction false} SortByPermutes(s: seq<Key>, e: map<Key, int>)
    requires forall x :: x in s ==> x in e
    ensures multiset(SortBy(s, e)) == multiset(s)
  {
    if s != [] {
      SortByPermutes(s[1..], e);
      InsertByPermutes(s[0], SortBy(s[1..], e), e);
      assert s == [s[0]] + s[1..];
    }
  }

  /** `\asort` of a duplicate-free sequence is duplicate-free. */
  lemma {:induction false} SortByDistinct(s: seq<Key>, e: map<Key, int>)
    requires (forall x :: x in s ==> x in e) && Distinct(s)
    ensures Distinct(SortBy(s, e))
  {
    if s != [] {
      DistinctTail(s);
      SortByDistinct(s[1..], e);
      InsertByDistinct(s[0], SortBy(s[1..], e), e);
    }
  }

  /** `\asort` yields a sorted rearrangement of the same keys, still without duplicates. */
  lemma SortByCorrect(s: seq<Key>, e: map<Key, int>)
    requires forall x :: x in s ==> x in e
    ensures SortedBy(SortBy(s, e), e)
    ensures multiset(SortBy(s, e)) == multiset(s)
    ensures Distinct(s) ==> Distinct(SortBy(s, e))
  {
    SortBySorted(s, e);
    SortByPermutes(s, e);
    if Distinct(s) {
      SortByDistinct(s, e);
    }
  }

  /** A PHP array with string keys: the keys in insertion order and what each maps to. */
  datatype OrderedMap<V> = OrderedMap(order: seq<Key>, values: map<Key, V>) {

    ghost predicate Valid() {
      Distinct(order) && forall k :: k in order <==> k in values
    }

    /** `\count($array)` */
    function Count(): nat {
      |order|
    }

    /** `unset($array[$k])` for every `$k` in `dead`. */
    function UnsetAll(dead: set<Key>): (r: OrderedMap<V>)
      ensures Valid() ==> r.Valid()
    {
      WithoutMembers(order, dead);
      WithoutDistinct(order, dead);
      OrderedMap(Without(order, dead), values - dead)
    }

    /** `unset($array[$key])` */
    function Unset(key: Key): (r: OrderedMap<V>)
      ensures Valid() ==> r.Valid()
    {
      UnsetAll({key})
    }

    /** `$array[$key] = $value`: an existing key keeps its place, a new one goes last. */
    function Assign(key: Key, value: V): (r: OrderedMap<V>)
      ensures Valid() ==> r.Valid()
    {
      if key in values then OrderedMap(order, values[key := value])
      else OrderedMap(order + [key], values[key := value])
    }

    /** `\array_shift($array)`: drops the oldest entry, if there is one. */
    function Shift(): (r: OrderedMap<V>)
      ensures Valid() ==> r.Valid()
    {
      if order == [] then this else OrderedMap(order[1..], values - {order[0]})
    }
  }

  /** `[]` */
  function Empty<V>(): (r: OrderedMap<V>)
    ensures r.Valid() && r.Count() == 0
  {
    OrderedMap([], map[])
  }

  /** `unset` of a present key removes exactly one entry, of an absent key none. */
  lemma UnsetCount<V>(m: OrderedMap<V>, key: Key)
    requires m.Valid()
    ensures m.Unset(key).Count() == if key in m.values then m.Count() - 1 else m.Count()
  {
    if key in m.values {
      var i :| 0 <= i < |m.order| && m.order[i] == key;
      assert m.order[i] !in m.order[..i] && m.order[i] !in m.order[i + 1..];
      WithoutSplice(m.order, i);
    } else {
      WithoutMembers(m.order, {key});
    }
  }

  /** A valid array holds exactly `count` entries. */
  lemma CountIsSize<V>(m: OrderedMap<V>)
    requires m.Valid()
    ensures |m.values| == m.Count()
  {
    DistinctCardinality(m.order);
    assert m.values.Keys == set k | k in m.order;
  }
}
