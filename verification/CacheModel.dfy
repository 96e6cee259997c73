/** The sequential rules of the bounded TTL cache, on plain maps.

    A `HashMap` is a finite map; the order in which it happens to be iterated
    is an extra argument, so every statement below holds for every order. */
module CacheModel {
  import opened Results

  datatype Entry<+V> = Entry(value: V, fetchedAt: nat)

  type Entries<K, +V> = map<K, Entry<V>>

  /** `saturating_duration_since`: never negative. */
  function Elapsed(now: nat, since: nat): nat {
    if now > since then now - since else 0
  }

  predicate Expired<V>(e: Entry<V>, now: nat, ttl: nat) {
    Elapsed(now, e.fetchedAt) >= ttl
  }

  function LookupFresh<K(==), V>(m: Entries<K, V>, key: K, now: nat, ttl: nat): Option<V> {
    if key in m && !Expired(m[key], now, ttl) then Some(m[key].value) else None
  }

  /** `order` is one way of iterating over `m`: each key once. */
  ghost predicate IsOrder<K(!new), V>(order: seq<K>, m: Entries<K, V>) {
    && (forall i, j :: 0 <= i < j < |order| ==> order[i] != order[j])
    && (forall k :: k in order <==> k in m)
  }

  /** The scan of `evict_one`: stop at the first expired entry met; otherwise
      keep the earliest fetched one, the first of them on a tie. */
  function Scan<K(==), V>(order: seq<K>, m: Entries<K, V>, now: nat, ttl: nat, oldest: Option<K>): Option<K>
    requires forall k :: k in order ==> k in m
    requires oldest.Some? ==> oldest.value in m
  {
    if order == [] then oldest
    else if Expired(m[order[0]], now, ttl) then Some(order[0])
    else Scan(order[1..], m, now, ttl, Older(m, oldest, order[0]))
  }

  function Older<K(==), V>(m: Entries<K, V>, oldest: Option<K>, k: K): Option<K>
    requires k in m && (oldest.Some? ==> oldest.value in m)
  {
    if oldest.None? || m[k].fetchedAt < m[oldest.value].fetchedAt then Some(k) else oldest
  }

  function EvictOne<K(==), V>(m: Entries<K, V>, order: seq<K>, now: nat, ttl: nat): Entries<K, V>
    requires forall k :: k in order ==> k in m
  {
    match Scan(order, m, now, ttl, None)
    case None => m
    case Some(k) => m - {k}
  }

  /** The insertion at the end of a load, once the epoch check has passed. */
  function Insert<K(==), V>(m: Entries<K, V>, order: seq<K>, key: K, value: V, now: nat, cap: nat,
                    ttl: nat): Entries<K, V>
    requires forall k :: k in order ==> k in m
  {
    (if |m| >= cap && key !in m then EvictOne(m, order, now, ttl) else m)[key := Entry(value, now)]
  }

  /** What any victim must satisfy: its time to live is over when that of some
      entry is, else nothing was fetched before it. */
  ghost predicate GoodVictim<K(!new), V>(m: Entries<K, V>, v: K, now: nat, ttl: nat) {
    && v in m
    && if exists k :: k in m && m[k].fetchedAt + ttl <= now
       then m[v].fetchedAt + ttl <= now
       else forall k :: k in m ==> m[v].fetchedAt <= m[k].fetchedAt
  }

  /** `m'` is `m` after a load: the value is there under the load's time, and
      one good victim is gone if a new key found the map full. */
  ghost predicate Stored<K(!new), V>(m: Entries<K, V>, m': Entries<K, V>, key: K, value: V, now: nat, cap: nat,
                                     ttl: nat)
  {
    if key in m || |m| < cap then m' == m[key := Entry(value, now)]
    else exists v :: GoodVictim(m, v, now, ttl) && m' == (m - {v})[key := Entry(value, now)]
  }

  /** An entry is expired from the end of its time to live on. */
  lemma {:induction false} ExpiredExactly<V>(e: Entry<V>, now: nat, ttl: nat)
    requires ttl > 0
    ensures Expired(e, now, ttl) <==> e.fetchedAt + ttl <= now
  {
  }

  lemma {:induction false} ScanStopsAtExpired<K(!new), V>(order: seq<K>, m: Entries<K, V>, now: nat, ttl: nat,
                                          oldest: Option<K>)
    requires forall k :: k in order ==> k in m
    requires oldest.Some? ==> oldest.value in m && !Expired(m[oldest.value], now, ttl)
    ensures var r := Scan(order, m, now, ttl, oldest);
      && (r.None? <==> order == [] && oldest.None?)
      && (r.Some? ==> r.value in m && (r.value in order || r == oldest))
      && (if exists k :: k in order && Expired(m[k], now, ttl)
          then r.Some? && Expired(m[r.value], now, ttl)
          else (forall k :: k in order ==> r.Some? && m[r.value].fetchedAt <= m[k].fetchedAt)
               && (oldest.Some? ==> r.Some? && m[r.value].fetchedAt <= m[oldest.value].fetchedAt))
    decreases |order|
  {
    if order != [] && !Expired(m[order[0]], now, ttl) {
      var k0 := order[0];
      var next := Older(m, oldest, k0);
      assert order == [k0] + order[1..];
      ScanStopsAtExpired(order[1..], m, now, ttl, next);
    }
  }

  /** For every iteration order the victim is an expired entry if there is
      one, else an entry of minimal fetch time; an empty map has none. */
  lemma {:induction false} VictimForEveryOrder<K(!new), V>(m: Entries<K, V>, order: seq<K>, now: nat, ttl: nat)
    requires IsOrder(order, m) && ttl > 0
    ensures m == map[] ==> EvictOne(m, order, now, ttl) == m
    ensures m != map[] ==>
      exists v :: GoodVictim(m, v, now, ttl) && EvictOne(m, order, now, ttl) == m - {v}
  {
    ScanStopsAtExpired(order, m, now, ttl, None);
    if m != map[] {
      var k :| k in m;
      assert k in order;
      var v := Scan(order, m, now, ttl, None).value;
      assert GoodVictim(m, v, now, ttl);
    }
  }

  /** The assertion "eviction made room" never fails. */
  lemma {:induction false} EvictionMakesRoom<K(!new), V>(m: Entries<K, V>, order: seq<K>, now: nat, ttl: nat)
    requires IsOrder(order, m) && m != map[]
    ensures var r := EvictOne(m, order, now, ttl); |r| == |m| - 1 && forall k :: k in r ==> k in m && r[k] == m[k]
  {
    ScanStopsAtExpired(order, m, now, ttl, None);
    var k :| k in m;
    assert k in order;
    var v := Scan(order, m, now, ttl, None).value;
    assert (m - {v}).Keys == m.Keys - {v};
    assert |(m - {v}).Keys| == |m.Keys| - 1;
  }

  /** An insertion does just that, whatever the iteration order. */
  lemma {:induction false} InsertStores<K(!new), V>(m: Entries<K, V>, order: seq<K>, key: K, value: V, now: nat,
                                                    cap: nat, ttl: nat)
    requires IsOrder(order, m) && |m| <= cap && cap > 0 && ttl > 0
    ensures Stored(m, Insert(m, order, key, value, now, cap, ttl), key, value, now, cap, ttl)
  {
    if |m| >= cap && key !in m { VictimForEveryOrder(m, order, now, ttl); }
  }

  /** The map stays within its capacity, a key already present is refreshed
      without evicting anything, and only `key` and at most one victim change. */
  lemma {:induction false} InsertKeepsBound<K(!new), V>(m: Entries<K, V>, order: seq<K>, key: K, value: V, now: nat,
                                          cap: nat, ttl: nat)
    requires IsOrder(order, m) && |m| <= cap && cap > 0
    ensures var r := Insert(m, order, key, value, now, cap, ttl);
      && |r| == (if key in m || |m| == cap then |m| else |m| + 1)
      && key in r && r[key] == Entry(value, now)
      && (forall k :: k in r && k != key ==> k in m && r[k] == m[k])
      && (|m| < cap || key in m ==> r.Keys == m.Keys + {key})
  {
    if |m| >= cap && key !in m {
      EvictionMakesRoom(m, order, now, ttl);
    }
  }

  /** The documentation of `evict_one` promises the oldest expired entry. */
  ghost predicate OldestExpired<K(!new), V>(m: Entries<K, V>, v: K, now: nat, ttl: nat) {
    && v in m && Expired(m[v], now, ttl)
    && forall k :: k in m && Expired(m[k], now, ttl) ==> m[v].fetchedAt <= m[k].fetchedAt
  }

  /** A map whose scan may take the younger of two expired entries. */
  lemma {:induction false} ScanMayMissOldestExpired()
    ensures var m := map[1 := Entry("a", 0), 2 := Entry("b", 5)];
      IsOrder([2, 1], m) && EvictOne(m, [2, 1], 100, 10) == m - {2} && !OldestExpired(m, 2, 100, 10)
  {
    var m := map[1 := Entry("a", 0), 2 := Entry("b", 5)];
    assert Expired(m[1], 100, 10) && Expired(m[2], 100, 10);
  }

  /** Exactly when that promise is kept whatever the iteration order: all
      expired entries were fetched at the same time. */
  lemma {:induction false} OldestExpiredExactly<K(!new), V>(m: Entries<K, V>, now: nat, ttl: nat)
    requires exists k :: k in m && Expired(m[k], now, ttl)
    ensures
      (forall order | IsOrder(order, m) ::
         exists v :: OldestExpired(m, v, now, ttl) && Scan(order, m, now, ttl, None) == Some(v))
      <==>
      (forall a, b :: a in m && b in m && Expired(m[a], now, ttl) && Expired(m[b], now, ttl)
         ==> m[a].fetchedAt == m[b].fetchedAt)
  {
    if forall a, b :: a in m && b in m && Expired(m[a], now, ttl) && Expired(m[b], now, ttl)
         ==> m[a].fetchedAt == m[b].fetchedAt {
      forall order | IsOrder(order, m)
        ensures exists v :: OldestExpired(m, v, now, ttl) && Scan(order, m, now, ttl, None) == Some(v)
      {
        OneAgeIsOldest(m, order, now, ttl);
      }
    } else {
      var a, b :| a in m && b in m && Expired(m[a], now, ttl) && Expired(m[b], now, ttl)
                  && m[a].fetchedAt < m[b].fetchedAt;
      var order := YoungerFirst(m, a, b, now, ttl);
    }
  }

  lemma {:induction false} OneAgeIsOldest<K(!new), V>(m: Entries<K, V>, order: seq<K>, now: nat, ttl: nat)
    requires IsOrder(order, m) && exists k :: k in m && Expired(m[k], now, ttl)
    requires forall a, b :: a in m && b in m && Expired(m[a], now, ttl) && Expired(m[b], now, ttl)
               ==> m[a].fetchedAt == m[b].fetchedAt
    ensures exists v :: OldestExpired(m, v, now, ttl) && Scan(order, m, now, ttl, None) == Some(v)
  {
    hide Scan;
    ScanStopsAtExpired(order, m, now, ttl, None);
    var k :| k in m && Expired(m[k], now, ttl);
    assert k in order;
    assert OldestExpired(m, Scan(order, m, now, ttl, None).value, now, ttl);
  }

  lemma {:induction false} YoungerFirst<K(!new), V>(m: Entries<K, V>, a: K, b: K, now: nat, ttl: nat)
    returns (order: seq<K>)
    requires a in m && b in m && Expired(m[a], now, ttl) && Expired(m[b], now, ttl) && m[a].fetchedAt < m[b].fetchedAt
    ensures IsOrder(order, m) && Scan(order, m, now, ttl, None) == Some(b) && !OldestExpired(m, b, now, ttl)
  {
    order := [b] + SomeOrder(m - {b});
    assert IsOrder(order, m);
    assert Scan(order, m, now, ttl, None) == Some(b);
  }

  /** Every map can be iterated in some order. */
  ghost function SomeOrder<K(!new), V>(m: Entries<K, V>): (order: seq<K>)
    ensures IsOrder(order, m)
    decreases |m|
  {
    if m == map[] then []
    else
      var k :| k in m;
      assert |(m - {k}).Keys| < |m.Keys| by { assert (m - {k}).Keys == m.Keys - {k}; }
      [k] + SomeOrder(m - {k})
  }
}
