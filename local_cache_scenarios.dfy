/**
 * The behaviours the repository's store tests check, as runs of the
 * in-memory store model whose results are proved. The tests' one-second
 * sleep is a step of the clock parameter from 0 to 1.
 */
module LocalCacheScenarios {
  import opened Wrappers
  import opened CacheErrors
  import opened PhpArrays
  import opened ExpiringState
  import opened SrcLocalCache

  /** A missing key reads as null; after a set with a TTL of 10 it reads back. */
  method GetAfterSet() returns (before: Option<string>, after: Option<string>)
    ensures before == None && after == Some("myvalue")
  {
    var c := new LocalCache(None);
    before := c.Get("mykey", 0);
    var _ := c.Set("mykey", "myvalue", Some(10), 0);
    after := c.Get("mykey", 0);
  }

  /** A value stored with a TTL of zero is gone one second later. */
  method ExpiredAfterTtl() returns (r: Option<string>)
    ensures r == None
  {
    var c := new LocalCache(None);
    var _ := c.Set("foo", "bar", Some(0), 0);
    r := c.Get("foo", 1);
  }

  /** Storing again without a TTL removes the earlier expiry. */
  method OverrideWithoutTtl() returns (r: Option<string>)
    ensures r == Some("bar")
  {
    var c := new LocalCache(None);
    var _ := c.Set("foo", "bar", Some(0), 0);
    var _ := c.Set("foo", "bar", None, 0);
    r := c.Get("foo", 1);
  }

  /** A deleted key reads as null. */
  method GetAfterDelete() returns (existed: bool, r: Option<string>)
    ensures existed && r == None
  {
    var c := new LocalCache(None);
    var _ := c.Set("foo", "bar", None, 0);
    existed := c.Delete("foo");
    r := c.Get("foo", 0);
  }

  /** The `$i`-th key and value of the limit test, for `$i` from 1 to 9. */
  function Name(i: int): Key
    requires 1 <= i <= 9
  {
    "foo_" + [('0' as int + i) as char]
  }

  function Digit(i: int): string
    requires 1 <= i <= 9
  {
    [('0' as int + i) as char]
  }

  /** The keys `Name(lo)` to `Name(hi - 1)`, oldest first. */
  function Names(lo: int, hi: int): (r: seq<Key>)
    requires 1 <= lo <= hi <= 10
    ensures |r| == hi - lo
    ensures forall j :: 0 <= j < |r| ==> r[j] == Name(lo + j)
  {
    seq(hi - lo, j requires 0 <= j < hi - lo => Name(lo + j))
  }

  lemma NamesStep(lo: int, hi: int)
    requires 1 <= lo < hi <= 9
    ensures Names(lo, hi) + [Name(hi)] == Names(lo, hi + 1)
    ensures Names(lo, hi)[1..] == Names(lo + 1, hi)
  {
  }

  /** The keys a store limited to five holds after `foo_1` to `foo_(i-1)` were set in turn. */
  function Window(i: int): seq<Key>
    requires 1 <= i <= 7
  {
    if i <= 6 then Names(1, i) else Names(i - 5, i)
  }

  /** `foo_i` is not among the keys held before it is set. */
  lemma NameFresh(i: int)
    requires 1 <= i <= 6
    ensures Name(i) !in Window(i)
  {
    forall k | k in Window(i)
      ensures k[4] != Name(i)[4]
    {
    }
  }

  /** Setting `foo_i` moves a store limited to five from one window to the next. */
  lemma WindowStep(c: OrderedMap<string>, i: int)
    requires 1 <= i <= 6 && c.Valid() && c.order == Window(i)
    ensures Replace(c, Name(i), Digit(i), Some(5)).order == Window(i + 1)
  {
    NameFresh(i);
    ReplaceNewKey(c, Name(i), Digit(i), Some(5));
    if i == 6 {
      NamesStep(1, 6);
      NamesStep(2, 6);
    } else if i > 1 {
      NamesStep(1, i);
    } else {
      assert Names(1, 2) == [Name(1)];
    }
  }

  /** The loop body of the limit test: `set("foo_$i", $i, 0)` at second 0. */
  method SetFoo(c: LocalCache, i: int)
    requires 1 <= i <= 6 && c.Valid() && c.sizeLimit == Some(5) && c.state.cache.order == Window(i)
    modifies c.state
    ensures c.Valid() && c.state.cache.order == Window(i + 1)
    ensures c.Peek(Name(i), 0) == Some(Digit(i))
  {
    WindowStep(c.state.cache, i);
    var _ := c.Set(Name(i), Digit(i), Some(0), 0);
    StoredValueVisible(old(c.state.cache), old(c.state.cacheTimeouts), Name(i), Digit(i), Some(0), 0, c.sizeLimit, 0);
  }

  /**
   * With a limit of five, setting `foo_1` to `foo_6` in turn shifts out the
   * first: it then reads as null while the sixth reads back.
   */
  method LimitEvictsOldest() returns (first: Option<string>, last: Option<string>)
    ensures first == None && last == Some("6")
  {
    var c := new LocalCache(Some(5));
    for i := 1 to 7
      invariant fresh(c.state) && c.Valid() && c.sizeLimit == Some(5)
      invariant c.state.cache.order == Window(i)
      invariant i > 1 ==> c.Peek(Name(i - 1), 0) == Some(Digit(i - 1))
    {
      SetFoo(c, i);
    }
    forall k | k in c.state.cache.order
      ensures k[4] != '1'
    {
    }
    assert "foo_1"[4] == '1';
    first := c.Get("foo_1", 0);
    assert "foo_6" == Name(6) && "6" == Digit(6);
    last := c.Get("foo_6", 0);
  }
}
