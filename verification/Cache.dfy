/**
 The expiring cache: a map of items and, kept apart from it, a 64-bit counter. Sequential
 view; what the two atomic steps of each change do under interleaving is in CacheInterleaving.
 */
module Cache {
  import opened Wrappers
  import opened Duplicates

  const TWO_64: int := 0x1_0000_0000_0000_0000
  const TWO_63: int := 0x8000_0000_0000_0000

  type uint64 = x: int | 0 <= x < 0x1_0000_0000_0000_0000

  /** Go's uint64 arithmetic wraps. */
  function Wrap(x: int): uint64 {
    x % TWO_64
  }

  /** Go's conversion of a uint64 to a 64-bit int. */
  function ToInt(x: uint64): int {
    if x < TWO_63 then x else x - TWO_64
  }

  type Time = int

  /** A cached item; content is the protobuf content of a message value, if it has one. */
  datatype Item<V> = Item(key: string, value: V, content: Option<Content>, expiration: Time)

  // ------------------------------------------------------------------ eviction

  /** How many items CleanUp deletes. */
  function Evictions(counter: uint64, max: uint64, size: nat): nat {
    var amount := ToInt(Wrap(counter - max));
    if max == 0 || amount <= 0 then 0 else if amount < size then amount else size
  }

  function Min(a: int, b: int): int {
    if a < b then a else b
  }

  /** With an exact counter CleanUp keeps min(size, max) items, although counter - max wraps
      below the limit, exactly while limit and size are no further apart than an int can tell;
      a limit more than 2^63 above the size empties the cache. */
  lemma EvictionsExact(size: nat, max: uint64)
    requires size < TWO_64 && max > 0
    ensures size - Evictions(size, max, size) == Min(size, max)
            <==> size == 0 || (max - size <= TWO_63 && size - max < TWO_63)
    ensures size > 0 && max - size > TWO_63 ==> Evictions(size, max, size) == size
  {
    if size < max {
      assert Wrap(size - max) == size - max + TWO_64;
    } else {
      assert Wrap(size - max) == size - max;
    }
  }

  lemma WrapAdd(x: int, y: int)
    ensures Wrap(Wrap(x) + y) == Wrap(x + y)
  {
  }

  lemma ModShift(x: int)
    ensures (x + TWO_64) % TWO_64 == x % TWO_64
  {
  }

  /** Adding 2^64 - 1 takes one away. */
  lemma WrapLess(x: int)
    ensures Wrap(Wrap(x) + (TWO_64 - 1)) == Wrap(x - 1)
  {
    WrapAdd(x, TWO_64 - 1);
    ModShift(x - 1);
    assert x + (TWO_64 - 1) == x - 1 + TWO_64;
  }

  lemma SizeAfterSet<V>(items: map<string, V>, key: string, value: V)
    ensures |items[key := value]| == |items| + if key in items then 0 else 1
  {
    var after := items[key := value];
    assert after.Keys == items.Keys + {key};
    assert |after| == |after.Keys| && |items| == |items.Keys|;
  }

  lemma SizeAfterDelete<V>(items: map<string, V>, key: string)
    ensures |items - {key}| == |items| - if key in items then 1 else 0
  {
    var after := items - {key};
    assert after.Keys == items.Keys - {key};
    assert |after| == |after.Keys| && |items| == |items.Keys|;
  }

  /** after is before without n items, none of which outlives one that stays. */
  predicate Evicted<V(==)>(before: map<string, Item<V>>, after: map<string, Item<V>>, n: nat) {
    && after.Keys <= before.Keys
    && (forall k :: k in after ==> after[k] == before[k])
    && |after| + n == |before|
    && (forall k, l :: k in before && k !in after && l in after ==> before[k].expiration <= after[l].expiration)
  }

  lemma NothingEvicted<V>(before: map<string, Item<V>>, after: map<string, Item<V>>)
    ensures Evicted(before, after, 0) <==> after == before
  {
    assert |before| == |before.Keys| && |after| == |after.Keys|;
    if Evicted(before, after, 0) {
      SubsetOfSameSize(after.Keys, before.Keys);
    }
  }

  /** With an exact counter: nothing goes without a limit or up to it, and the excess beyond. */
  lemma SizeAfterCleanUp<V>(items: map<string, Item<V>>, max: uint64)
    ensures max == 0 || |items| <= max <= TWO_63 ==> Evictions(Wrap(|items|), max, |items|) == 0
    ensures 0 < max <= |items| < TWO_63 ==> |items| - Evictions(Wrap(|items|), max, |items|) == max
  {
    if 0 < max && |items| <= TWO_63 {
      EvictionsExact(|items|, max);
      assert Wrap(|items|) == |items|;
    }
  }

  predicate Keyed<V>(items: map<string, Item<V>>) {
    forall k :: k in items ==> items[k].key == k
  }

  predicate Sorted<V>(items: seq<Item<V>>) {
    forall i, j :: 0 <= i < j < |items| ==> items[i].expiration <= items[j].expiration
  }

  /** The items of a map, each once, in some order. */
  predicate Lists<V(==)>(items: seq<Item<V>>, of: map<string, Item<V>>) {
    && |items| == |of|
    && (forall i :: 0 <= i < |items| ==> items[i].key in of && of[items[i].key] == items[i])
    && (forall i, j :: 0 <= i < j < |items| ==> items[i].key != items[j].key)
  }

  function KeySet<V>(items: seq<Item<V>>): set<string> {
    set i | 0 <= i < |items| :: items[i].key
  }

  lemma {:induction false} KeySetSize<V>(items: seq<Item<V>>)
    requires forall i, j :: 0 <= i < j < |items| ==> items[i].key != items[j].key
    ensures |KeySet(items)| == |items|
  {
    if items != [] {
      var front := items[..|items| - 1];
      KeySetSize(front);
      assert KeySet(items) == KeySet(front) + {items[|items| - 1].key};
    }
  }

  lemma ListsAll<V>(items: seq<Item<V>>, of: map<string, Item<V>>)
    requires Lists(items, of)
    ensures KeySet(items) == of.Keys
  {
    KeySetSize(items);
    assert KeySet(items) <= of.Keys;
    SubsetOfSameSize(KeySet(items), of.Keys);
  }

  lemma SubsetOfSameSize<T>(a: set<T>, b: set<T>)
    requires a <= b && |a| == |b|
    ensures a == b
  {
    assert b == a + (b - a) && |b| == |a| + |b - a|;
  }

  lemma KeyAt<V>(items: seq<Item<V>>, key: string) returns (i: nat)
    requires key in KeySet(items)
    ensures i < |items| && items[i].key == key
  {
    i :| 0 <= i < |items| && items[i].key == key;
  }

  /** Deleting the keys of the first n items of the sorted listing is an eviction of n. */
  lemma PrefixEvicted<V>(items: seq<Item<V>>, before: map<string, Item<V>>, n: nat)
    requires Lists(items, before) && Sorted(items) && n <= |items|
    ensures Evicted(before, before - KeySet(items[..n]), n)
  {
    var gone := KeySet(items[..n]);
    var after := before - gone;
    ListsAll(items, before);
    KeySetSize(items[..n]);
    assert gone <= before.Keys by {
      forall k | k in gone ensures k in before {
        var i := KeyAt(items[..n], k);
        assert items[i].key in before;
      }
    }
    assert after.Keys == before.Keys - gone;
    assert |after.Keys| == |before.Keys| - |gone|;
    forall k, l | k in before && k !in after && l in after
      ensures before[k].expiration <= after[l].expiration
    {
      var i := KeyAt(items[..n], k);
      var j := KeyAt(items, l);
      PrefixKey(items, n, j);
      assert before[k] == items[i] && before[l] == items[j];
    }
  }

  lemma DeleteOneMore<V>(items: seq<Item<V>>, i: nat, before: map<string, Item<V>>)
    requires i < |items|
    ensures before - KeySet(items[..i]) - {items[i].key} == before - KeySet(items[..i + 1])
  {
    assert items[..i + 1] == items[..i] + [items[i]];
    assert KeySet(items[..i + 1]) == KeySet(items[..i]) + {items[i].key} by {
      assert items[..i + 1][i] == items[i];
      forall j | 0 <= j < i ensures items[..i + 1][j] == items[..i][j] {
      }
    }
  }

  lemma PrefixKey<V>(items: seq<Item<V>>, n: nat, j: nat)
    requires n <= |items| && j < |items|
    ensures j < n ==> items[j].key in KeySet(items[..n])
  {
    if j < n {
      assert items[..n][j].key == items[j].key;
    }
  }

  /** The value of a key at a time: present and not expired. */
  function Live<V>(items: map<string, Item<V>>, key: string, now: Time): Option<V> {
    if key in items && now < items[key].expiration then Some(items[key].value) else None
  }

  /** Looking an expired item up removes it. */
  function AfterGet<V>(items: map<string, Item<V>>, key: string, now: Time): map<string, Item<V>> {
    if key in items && now >= items[key].expiration then items - {key} else items
  }

  /** A lookup finds what is left after it, and leaves all other keys alone. */
  lemma FindsWhatItLeaves<V>(items: map<string, Item<V>>, key: string, now: Time)
    ensures Live(items, key, now).Some? <==> key in AfterGet(items, key, now)
    ensures key in AfterGet(items, key, now) <==> key in items && now < items[key].expiration
    ensures Live(items, key, now).Some? ==> Live(items, key, now).value == items[key].value
    ensures AfterGet(items, key, now) - {key} == items - {key}
  {
  }

  predicate IsMessage(from: string) {
    "message" <= from
  }

  /** What SetCacheItem answers: nothing replaced, nothing to compare, or new content. */
  predicate Accepts<V>(items: map<string, Item<V>>, item: Item<V>, from: string, printer: Printer) {
    item.key !in items || !IsMessage(from) || AllowsTrigger(items[item.key].content, item.content, printer)
  }

  /** One id while it stays in the map: befores are the maps its messages find, each holding the
      message stored last, whatever else has happened in between. */
  predicate Stays<V(==)>(befores: seq<map<string, Item<V>>>, items: seq<Item<V>>, cs: seq<Content>) {
    && |befores| == |items| == |cs|
    && (forall k :: 0 <= k < |cs| ==> items[k].content == Some(cs[k]))
    && (cs != [] ==> items[0].key !in befores[0])
    && (forall k :: 0 < k < |cs| ==> items[k].key in befores[k] && befores[k][items[k].key] == items[k - 1])
  }

  /** The messages of one id that are accepted are those that fire in the sequence of its contents;
      among contents of one kind, those that differ from the last accepted one. */
  lemma AcceptedAreStutterFree<V>(befores: seq<map<string, Item<V>>>, items: seq<Item<V>>, cs: seq<Content>,
                                  from: string, printer: Printer, i: nat)
    requires Stays(befores, items, cs) && IsMessage(from) && i < |cs|
    ensures Accepts(befores[i], items[i], from, printer) <==> Fires(cs, i, printer)
    ensures Uniform(cs) && i > 0 ==>
      (Accepts(befores[i], items[i], from, printer) <==> !Duplicate(cs[LastFired(cs, i - 1, printer)], cs[i], printer))
  {
    assert items[i].content == Some(cs[i]);
    if i > 0 {
      assert items[i].key in befores[i] && befores[i][items[i].key] == items[i - 1];
      assert items[i - 1].content == Some(cs[i - 1]);
      if Uniform(cs) {
        TriggersAreStutterFree(cs, i, printer);
      }
    }
  }

  class QpCache<V(==)> {
    var counter: uint64
    var cacheMap: map<string, Item<V>>

    predicate Valid()
      reads this
    {
      counter == Wrap(|cacheMap|) && Keyed(cacheMap)
    }

    constructor ()
      ensures Valid() && cacheMap == map[]
    {
      counter, cacheMap := 0, map[];
    }

    method Count() returns (n: uint64)
      requires Valid()
      ensures n == Wrap(|cacheMap|)
    {
      n := counter;
    }

    method SetCacheItem(item: Item<V>, from: string, printer: Printer) returns (accepted: bool)
      requires Valid()
      modifies this
      ensures Valid() && cacheMap == old(cacheMap)[item.key := item]
      ensures accepted <==> Accepts(old(cacheMap), item, from, printer)
    {
      var loaded := item.key in cacheMap;
      var previous := if loaded then cacheMap[item.key].content else None;
      cacheMap := cacheMap[item.key := item];
      SizeAfterSet(old(cacheMap), item.key, item);
      if loaded {
        return !IsMessage(from) || AllowsTrigger(previous, item.content, printer);
      }
      WrapAdd(|old(cacheMap)|, 1);
      counter := Wrap(counter + 1);
      accepted := true;
    }

    method DeleteByKey(key: string)
      requires Valid()
      modifies this
      ensures Valid() && cacheMap == old(cacheMap) - {key}
    {
      if key in cacheMap {
        SizeAfterDelete(cacheMap, key);
        WrapLess(|cacheMap|);
        cacheMap := cacheMap - {key};
        counter := Wrap(counter + (TWO_64 - 1));
      } else {
        assert cacheMap - {key} == cacheMap;
      }
    }

    method GetAny(key: string, now: Time) returns (value: Option<V>)
      requires Valid()
      modifies this
      ensures Valid() && cacheMap == AfterGet(old(cacheMap), key, now)
      ensures value == Live(old(cacheMap), key, now)
    {
      if key in cacheMap {
        var item := cacheMap[key];
        if now < item.expiration {
          return Some(item.value);
        }
        DeleteByKey(key);
      }
      value := None;
    }

    /** A copy of the items in no particular order. */
    method GetSliceOfCachedItems() returns (items: seq<Item<V>>)
      requires Valid()
      ensures Lists(items, cacheMap)
    {
      items := [];
      var rest := cacheMap.Keys;
      while rest != {}
        invariant rest <= cacheMap.Keys && |items| + |rest| == |cacheMap.Keys|
        invariant forall i :: 0 <= i < |items| ==>
          items[i].key in cacheMap && cacheMap[items[i].key] == items[i] && items[i].key !in rest
        invariant forall i, j :: 0 <= i < j < |items| ==> items[i].key != items[j].key
        decreases |rest|
      {
        var key :| key in rest;
        items := items + [cacheMap[key]];
        rest := rest - {key};
      }
    }

    /** The items by expiration, earliest first. */
    method GetOrdered() returns (items: seq<Item<V>>)
      requires Valid()
      ensures Lists(items, cacheMap) && Sorted(items)
    {
      var slice := GetSliceOfCachedItems();
      items := Sort(slice);
      SameItemsList(slice, items, cacheMap);
    }

    /** The deletion loop: the first n of the listed items. */
    method DeleteFirst(items: seq<Item<V>>, n: int)
      requires Valid() && Lists(items, cacheMap) && Sorted(items)
      modifies this
      ensures Valid() && Evicted(old(cacheMap), cacheMap, if n < 0 then 0 else Min(n, |items|))
    {
      var i := 0;
      while i < n && i < |items|
        invariant 0 <= i <= |items| && (i == 0 || i <= n)
        invariant Valid() && cacheMap == old(cacheMap) - KeySet(items[..i])
      {
        DeleteOneMore(items, i, old(cacheMap));
        DeleteByKey(items[i].key);
        i := i + 1;
      }
      PrefixEvicted(items, old(cacheMap), i);
    }

    method CleanUp(max: uint64)
      requires Valid()
      modifies this
      ensures Valid()
      ensures Evicted(old(cacheMap), cacheMap, Evictions(old(counter), max, |old(cacheMap)|))
      ensures max == 0 || |old(cacheMap)| <= max <= TWO_63 ==> cacheMap == old(cacheMap)
      ensures 0 < max <= |old(cacheMap)| < TWO_63 ==> |cacheMap| == max
    {
      if max > 0 {
        var length := counter;
        var amount := Wrap(length - max);
        SizeAfterCleanUp(cacheMap, max);
        if amount > 0 {
          var items := GetOrdered();
          DeleteFirst(items, ToInt(amount));
        }
      }
      NothingEvicted(old(cacheMap), cacheMap);
    }
  }

  // ------------------------------------------------------------------ sort.Sort by expiration

  /** Sifts one item down to its place. */
  method Insert<V>(sorted: seq<Item<V>>, x: Item<V>) returns (longer: seq<Item<V>>)
    requires Sorted(sorted)
    ensures Sorted(longer) && multiset(longer) == multiset(sorted) + multiset{x}
  {
    var i := |sorted|;
    while i > 0 && sorted[i - 1].expiration > x.expiration
      invariant 0 <= i <= |sorted|
      invariant forall j :: i <= j < |sorted| ==> sorted[j].expiration > x.expiration
    {
      i := i - 1;
    }
    InsertSorts(sorted, i, x);
    InsertKeepsItems(sorted, i, x);
    longer := sorted[..i] + [x] + sorted[i..];
  }

  lemma InsertKeepsItems<T>(items: seq<T>, i: nat, x: T)
    requires i <= |items|
    ensures multiset(items[..i] + [x] + items[i..]) == multiset(items) + multiset{x}
  {
    assert items == items[..i] + items[i..];
  }

  lemma InsertSorts<V>(sorted: seq<Item<V>>, i: nat, x: Item<V>)
    requires Sorted(sorted) && i <= |sorted|
    requires i > 0 ==> sorted[i - 1].expiration <= x.expiration
    requires forall j :: i <= j < |sorted| ==> x.expiration <= sorted[j].expiration
    ensures Sorted(sorted[..i] + [x] + sorted[i..])
  {
    var longer := sorted[..i] + [x] + sorted[i..];
    forall j, k | 0 <= j < k < |longer| ensures longer[j].expiration <= longer[k].expiration {
      var j' := if j < i then j else j - 1;
      var k' := if k < i then k else k - 1;
      if j != i && k != i {
        assert longer[j] == sorted[j'] && longer[k] == sorted[k'];
      } else if j == i {
        assert longer[j] == x && longer[k] == sorted[k'];
      } else {
        assert longer[k] == x && longer[j] == sorted[j];
        assert sorted[j].expiration <= sorted[i - 1].expiration;
      }
    }
  }

  method Sort<V>(items: seq<Item<V>>) returns (sorted: seq<Item<V>>)
    ensures Sorted(sorted) && multiset(sorted) == multiset(items)
  {
    sorted := [];
    for n := 0 to |items|
      invariant Sorted(sorted) && multiset(sorted) == multiset(items[..n])
    {
      assert items[..n + 1] == items[..n] + [items[n]];
      sorted := Insert(sorted, items[n]);
    }
    assert items[..|items|] == items;
  }

  /** A permutation of a listing is a listing. */
  lemma SameItemsList<V>(a: seq<Item<V>>, b: seq<Item<V>>, of: map<string, Item<V>>)
    requires Lists(a, of) && multiset(a) == multiset(b)
    ensures Lists(b, of)
  {
    assert |multiset(a)| == |a| && |multiset(b)| == |b|;
    forall x | x in a ensures multiset(a)[x] == 1 {
      OnceOnly(a, x);
    }
    forall i | 0 <= i < |b| ensures b[i].key in of && of[b[i].key] == b[i] {
      assert b[i] in multiset(b);
      assert b[i] in a;
    }
    forall i, j | 0 <= i < j < |b| ensures b[i].key != b[j].key {
      if b[i].key == b[j].key {
        assert b[i] in multiset(b) && b[i] in a;
        assert b[i] == b[j];
        Twice(b, i, j);
      }
    }
  }

  lemma {:induction false} OnceOnly<V>(a: seq<Item<V>>, x: Item<V>)
    requires x in a && forall i, j :: 0 <= i < j < |a| ==> a[i].key != a[j].key
    ensures multiset(a)[x] == 1
  {
    var i :| 0 <= i < |a| && a[i] == x;
    assert a == a[..i] + [x] + a[i + 1..];
    assert x !in a[..i] && x !in a[i + 1..];
  }

  lemma Twice<T>(b: seq<T>, i: nat, j: nat)
    requires i < j < |b| && b[i] == b[j]
    ensures multiset(b)[b[i]] >= 2
  {
    assert b == b[..j] + [b[j]] + b[j + 1..];
    assert b[i] in b[..j];
  }
}
