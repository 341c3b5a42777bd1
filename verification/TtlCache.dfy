/** The in-process TTL cache (internal/cache/cache.go). Each method is one critical section of the source's lock;
    a call to time.Now() is a parameter. */
module TtlCache {
  import opened Wrappers
  import opened Collections

  datatype Entry<V> = Entry(value: V, expiresAt: int)

  type Items<V> = map<string, Entry<V>>

  /** `!time.Now().After(e.expiresAt)` */
  predicate Live<V>(e: Entry<V>, now: int) { now <= e.expiresAt }

  /** What a Get at `now` answers. */
  function Lookup<V>(items: Items<V>, key: string, now: int): Option<V> {
    if key in items && Live(items[key], now) then Some(items[key].value) else None
  }

  ghost predicate SubItems<V>(a: Items<V>, b: Items<V>) {
    forall k :: k in a ==> k in b && a[k] == b[k]
  }

  /** How many entries a Set drops first: none below capacity, otherwise a quarter of the capacity and at least one. */
  function Dropped(size: nat, maxSize: nat): nat {
    if size < maxSize || size == 0 then 0
    else if maxSize / 4 <= 1 then 1
    else if maxSize / 4 <= size then maxSize / 4 else size
  }

  /** The effect of Set: some `Dropped` entries go, whichever they are, then the key gets the value. */
  ghost predicate SetEffect<V(!new)>(items: Items<V>, maxSize: nat, key: string, e: Entry<V>, items': Items<V>) {
    exists kept: Items<V> ::
      SubItems(kept, items) && |kept| == |items| - Dropped(|items|, maxSize) && items' == kept[key := e]
  }

  /** The entries a Set may evict: none below capacity; otherwise a quarter of the capacity but at least one, or all
      there are. */
  ghost predicate Evicted<V>(items: Items<V>, maxSize: nat, gone: set<string>) {
    && gone <= items.Keys
    && |gone| == if |items| < maxSize then 0 else Least(if maxSize / 4 > 1 then maxSize / 4 else 1, |items|)
  }

  lemma EvictedIs<V>(items: Items<V>, maxSize: nat, kept: Items<V>)
    requires SubItems(kept, items) && |kept| == |items| - Dropped(|items|, maxSize)
    ensures Evicted(items, maxSize, items.Keys - kept.Keys) && items - (items.Keys - kept.Keys) == kept
  {
    assert kept.Keys <= items.Keys;
    assert |items.Keys - kept.Keys| == |items.Keys| - |kept.Keys|;
  }

  function WithoutPrefix<V>(items: Items<V>, prefix: string): Items<V> {
    map k | k in items && !(prefix <= k) :: items[k]
  }

  function WithoutExpired<V>(items: Items<V>, now: int): Items<V> {
    map k | k in items && Live(items[k], now) :: items[k]
  }

  class TTLCache<V(!new)> {
    var items: Items<V>
    const ttl: int
    const maxSize: nat

    constructor (ttl: int, maxSize: nat)
      ensures items == map[] && this.ttl == ttl && this.maxSize == maxSize
    {
      items := map[];
      this.ttl := ttl;
      this.maxSize := maxSize;
    }

    method Get(key: string, now: int) returns (r: Option<V>)
      ensures r == Lookup(items, key, now)
      ensures r.Some? <==> key in items && now <= items[key].expiresAt
      ensures r.Some? ==> r.value == items[key].value
    {
      if key !in items || !Live(items[key], now) {
        return None;
      }
      return Some(items[key].value);
    }

    method Set(key: string, value: V, now: int)
      modifies this
      ensures SetEffect(old(items), maxSize, key, Entry(value, now + ttl), items)
      ensures exists gone: set<string> :: Evicted(old(items), maxSize, gone)
                                          && items == (old(items) - gone)[key := Entry(value, now + ttl)]
    {
      if |items| >= maxSize {
        var count := 0;
        var target := maxSize / 4;
        var unvisited := items.Keys;
        while unvisited != {}
          invariant unvisited == items.Keys
          invariant SubItems(items, old(items))
          invariant |items| == |old(items)| - count
          invariant count == 0 || count < target
        {
          var k :| k in unvisited;
          unvisited := unvisited - {k};
          RemovedKey(items, k);
          items := items - {k};
          count := count + 1;
          if count >= target { break; }
        }
      }
      assert SubItems(items, old(items)) && |items| == |old(items)| - Dropped(|old(items)|, maxSize);
      EvictedIs(old(items), maxSize, items);
      items := items[key := Entry(value, now + ttl)];
    }

    method Delete(key: string)
      modifies this
      ensures items == old(items) - {key}
    {
      items := items - {key};
    }

    method DeletePrefix(prefix: string)
      modifies this
      ensures items == WithoutPrefix(old(items), prefix)
      ensures forall k :: k in items <==> k in old(items) && !(prefix <= k)
      ensures forall k :: k in items ==> items[k] == old(items)[k]
    {
      var unvisited := items.Keys;
      while unvisited != {}
        invariant unvisited <= items.Keys <= old(items).Keys
        invariant SubItems(items, old(items))
        invariant forall k :: k in old(items) && k !in unvisited ==> (k in items <==> !(prefix <= k))
      {
        var k :| k in unvisited;
        unvisited := unvisited - {k};
        if |k| >= |prefix| && k[..|prefix|] == prefix {
          items := items - {k};
        }
      }
    }

    /** One tick of evictLoop. */
    method Sweep(now: int)
      modifies this
      ensures items == WithoutExpired(old(items), now)
      ensures forall k :: k in items <==> k in old(items) && now <= old(items)[k].expiresAt
      ensures forall k :: k in items ==> items[k] == old(items)[k]
    {
      var unvisited := items.Keys;
      while unvisited != {}
        invariant unvisited <= items.Keys <= old(items).Keys
        invariant SubItems(items, old(items))
        invariant forall k :: k in old(items) && k !in unvisited ==> (k in items <==> Live(old(items)[k], now))
      {
        var k :| k in unvisited;
        unvisited := unvisited - {k};
        if !Live(items[k], now) {
          items := items - {k};
        }
      }
    }
  }

  lemma RemovedKey<V>(items: Items<V>, k: string)
    requires k in items
    ensures (items - {k}).Keys == items.Keys - {k} && |items - {k}| == |items| - 1
  {
    assert (items - {k}).Keys == items.Keys - {k};
    assert |(items - {k}).Keys| == |items.Keys| - 1;
  }

  // ------------------------------------------------- against an ideal cache

  datatype CacheOp<V> =
    | Put(key: string, entry: Entry<V>)
    | Del(key: string)
    | DelPrefix(prefix: string)
    | SweepAt(now: int)

  /** One operation on the cache; only Put leaves a choice, of the entries it evicts. */
  ghost predicate OpEffect<V(!new)>(items: Items<V>, maxSize: nat, op: CacheOp<V>, items': Items<V>) {
    match op
    case Put(key, e) => SetEffect(items, maxSize, key, e, items')
    case Del(key) => items' == items - {key}
    case DelPrefix(prefix) => items' == WithoutPrefix(items, prefix)
    case SweepAt(now) => items' == WithoutExpired(items, now)
  }

  /** The same operation on a cache without a capacity that never forgets an entry by itself. */
  function IdealOp<V>(ideal: Items<V>, op: CacheOp<V>): Items<V> {
    match op
    case Put(key, e) => ideal[key := e]
    case Del(key) => ideal - {key}
    case DelPrefix(prefix) => WithoutPrefix(ideal, prefix)
    case SweepAt(_) => ideal
  }

  function Ideal<V>(ops: seq<CacheOp<V>>): Items<V> {
    if ops == [] then map[] else IdealOp(Ideal(ops[..|ops| - 1]), ops[|ops| - 1])
  }

  /** `states` is a run of the cache over `ops`, from empty. */
  ghost predicate CacheRun<V(!new)>(maxSize: nat, states: seq<Items<V>>, ops: seq<CacheOp<V>>) {
    && |states| == |ops| + 1 && states[0] == map[]
    && forall i | 0 <= i < |ops| :: OpEffect(states[i], maxSize, ops[i], states[i + 1])
  }

  lemma SubItemsSize<V>(a: Items<V>, b: Items<V>)
    requires SubItems(a, b)
    ensures |a| <= |b|
  {
    assert a.Keys <= b.Keys;
    SubsetSize(a.Keys, b.Keys);
  }

  lemma PutSize<V(!new)>(items: Items<V>, maxSize: nat, key: string, e: Entry<V>, items': Items<V>)
    requires SetEffect(items, maxSize, key, e, items') && maxSize >= 1 && |items| <= maxSize
    ensures |items'| <= maxSize && key in items' && items'[key] == e
  {
    var kept: Items<V> :|
      SubItems(kept, items) && |kept| == |items| - Dropped(|items|, maxSize) && items' == kept[key := e];
    assert items'.Keys == kept.Keys + {key};
    assert |items'.Keys| <= |kept.Keys| + 1;
  }

  lemma OpKeeps<V(!new)>(items: Items<V>, maxSize: nat, op: CacheOp<V>, items': Items<V>, ideal: Items<V>)
    requires maxSize >= 1 && OpEffect(items, maxSize, op, items')
    requires |items| <= maxSize && SubItems(items, ideal)
    ensures |items'| <= maxSize && SubItems(items', IdealOp(ideal, op))
  {
    match op
    case Put(key, e) => PutSize(items, maxSize, key, e, items');
    case Del(key) => SubItemsSize(items', items);
    case DelPrefix(prefix) => SubItemsSize(items', items);
    case SweepAt(now) => SubItemsSize(items', items);
  }

  /** Over every run of a cache with room for one entry: it never exceeds its capacity, and holds only entries the
      ideal cache holds, so a Get never answers anything but the last value set. */
  lemma {:induction false} RunWithinIdeal<V(!new)>(maxSize: nat, states: seq<Items<V>>, ops: seq<CacheOp<V>>)
    requires maxSize >= 1 && CacheRun(maxSize, states, ops)
    ensures |states[|ops|]| <= maxSize && SubItems(states[|ops|], Ideal(ops))
    ensures forall key, now :: Lookup(states[|ops|], key, now) in {None, Lookup(Ideal(ops), key, now)}
    decreases |ops|
  {
    var n := |ops|;
    if n != 0 {
      RunWithinIdeal(maxSize, states[..n], ops[..n - 1]);
      OpKeeps(states[n - 1], maxSize, ops[n - 1], states[n], Ideal(ops[..n - 1]));
    }
  }

  /** A Set never evicts the key it sets. */
  lemma SetKeepsOwnKey<V(!new)>(items: Items<V>, maxSize: nat, key: string, value: V, now: int, ttl: nat,
                                items': Items<V>)
    requires SetEffect(items, maxSize, key, Entry(value, now + ttl), items')
    ensures forall later | now <= later <= now + ttl :: Lookup(items', key, later) == Some(value)
  {
  }

  /** A sweep changes no answer at its own or any later time. */
  lemma SweepIsInvisible<V>(items: Items<V>, now: int, later: int, key: string)
    requires now <= later
    ensures Lookup(WithoutExpired(items, now), key, later) == Lookup(items, key, later)
  {
  }

  /** No sweep so far ran after `now`. */
  ghost predicate SweptBy<V>(ops: seq<CacheOp<V>>, now: int) {
    forall i | 0 <= i < |ops| :: ops[i].SweepAt? ==> ops[i].now <= now
  }

  /** Under the capacity at every Set, the ideal cache's expired entries are the only ones missing. */
  ghost predicate Uncrowded<V>(maxSize: nat, ops: seq<CacheOp<V>>) {
    forall i | 0 <= i < |ops| :: ops[i].Put? ==> |Ideal(ops[..i])| < maxSize
  }

  ghost predicate HoldsLive<V>(items: Items<V>, ideal: Items<V>, now: int) {
    forall k :: k in ideal && Live(ideal[k], now) ==> k in items && items[k] == ideal[k]
  }

  lemma UncrowdedOp<V(!new)>(items: Items<V>, maxSize: nat, op: CacheOp<V>, items': Items<V>, ideal: Items<V>, now: int)
    requires OpEffect(items, maxSize, op, items') && SubItems(items, ideal) && HoldsLive(items, ideal, now)
    requires op.Put? ==> |ideal| < maxSize
    requires op.SweepAt? ==> op.now <= now
    ensures HoldsLive(items', IdealOp(ideal, op), now)
  {
    if op.Put? {
      SubItemsSize(items, ideal);
      var kept: Items<V> :| SubItems(kept, items) && |kept| == |items| - Dropped(|items|, maxSize)
                            && items' == kept[op.key := op.entry];
      SameSizeSame(kept, items);
    }
  }

  lemma IdealStep<V>(ops: seq<CacheOp<V>>, n: nat)
    requires n < |ops|
    ensures Ideal(ops[..n + 1]) == IdealOp(Ideal(ops[..n]), ops[n])
  {
    assert ops[..n + 1][..n] == ops[..n];
  }

  lemma {:induction false} UncrowdedHolds<V(!new)>(maxSize: nat, states: seq<Items<V>>, ops: seq<CacheOp<V>>,
                                                   now: int, n: nat)
    requires maxSize >= 1 && CacheRun(maxSize, states, ops) && Uncrowded(maxSize, ops) && SweptBy(ops, now)
    requires n <= |ops|
    ensures HoldsLive(states[n], Ideal(ops[..n]), now) && SubItems(states[n], Ideal(ops[..n])) && |states[n]| <= maxSize
  {
    if n != 0 {
      UncrowdedHolds(maxSize, states, ops, now, n - 1);
      IdealStep(ops, n - 1);
      OpKeeps(states[n - 1], maxSize, ops[n - 1], states[n], Ideal(ops[..n - 1]));
      UncrowdedOp(states[n - 1], maxSize, ops[n - 1], states[n], Ideal(ops[..n - 1]), now);
    }
  }

  lemma SameSizeSame<V>(kept: Items<V>, items: Items<V>)
    requires SubItems(kept, items) && |kept| == |items|
    ensures kept == items
  {
    assert kept.Keys <= items.Keys;
    if k :| k in items && k !in kept {
      assert kept.Keys <= items.Keys - {k};
      SubsetSize(kept.Keys, items.Keys - {k});
    }
  }

  /** With no pressure on the capacity the cache is the ideal one: every Get, present or later, answers the same. */
  lemma UncrowdedIsIdeal<V(!new)>(maxSize: nat, states: seq<Items<V>>, ops: seq<CacheOp<V>>, key: string, now: int)
    requires maxSize >= 1 && CacheRun(maxSize, states, ops) && Uncrowded(maxSize, ops) && SweptBy(ops, now)
    ensures Lookup(states[|ops|], key, now) == Lookup(Ideal(ops), key, now)
  {
    UncrowdedHolds(maxSize, states, ops, now, |ops|);
    assert ops[..|ops|] == ops;
  }
}
