/** The cache object, one critical section a method, and its sequential runs. */
module Cache {
  import opened Results
  import opened M = CacheModel

  class BoundedTtlCache<K(==, !new), V(!new)> {
    const cap: nat
    const ttl: nat
    var entries: Entries<K, V>
    var epoch: nat

    ghost predicate Valid()
      reads this
    {
      cap > 0 && ttl > 0 && |entries| <= cap
    }

    constructor (cap: nat, ttl: nat)
      requires cap > 0 && ttl > 0
      ensures Valid() && entries == map[] && epoch == 0 && this.cap == cap && this.ttl == ttl
    {
      this.cap, this.ttl, entries, epoch := cap, ttl, map[], 0;
    }

    /** One load with nothing else running. `loaded` is what the loader would
        return, `order` how the hash map happens to be iterated. */
    method GetOrLoad<E>(key: K, now: nat, loaded: Result<V, E>, nowAfter: nat, order: seq<K>) returns (r: Result<V, E>)
      requires Valid() && IsOrder(order, entries)
      modifies this
      ensures Valid() && epoch == old(epoch)
      ensures if key in old(entries) && now < old(entries)[key].fetchedAt + ttl
              then r == Ok(old(entries)[key].value) && entries == old(entries)
              else && r == loaded
                   && if loaded.Ok? then Stored(old(entries), entries, key, loaded.value, nowAfter, cap, ttl)
                      else entries == old(entries)
      ensures r == Answer(old(entries), key, now, loaded, ttl)
      ensures entries == Loaded(old(entries), order, key, now, loaded, nowAfter, cap, ttl)
    {
      if key in entries { ExpiredExactly(entries[key], now, ttl); }
      if loaded.Ok? { InsertStores(entries, order, key, loaded.value, nowAfter, cap, ttl); }
      var found := LookupFresh(key, now);
      if found.Some? {
        return Ok(found.value);
      }
      var startedAtEpoch := epoch;
      if loaded.Err? {
        return loaded;
      }
      InsertIfEpoch(key, loaded.value, nowAfter, startedAtEpoch, order);
      return loaded;
    }

    method LookupFresh(key: K, now: nat) returns (r: Option<V>)
      ensures r == M.LookupFresh(entries, key, now, ttl)
    {
      if key !in entries {
        return None;
      }
      var entry := entries[key];
      if Elapsed(now, entry.fetchedAt) >= ttl {
        return None;
      }
      return Some(entry.value);
    }

    method InsertIfEpoch(key: K, value: V, now: nat, startedAtEpoch: nat, order: seq<K>)
      requires Valid() && IsOrder(order, entries)
      modifies this`entries
      ensures Valid()
      ensures entries == if epoch == startedAtEpoch
                         then Insert(old(entries), order, key, value, now, cap, ttl) else old(entries)
    {
      if epoch != startedAtEpoch {
        return;
      }
      InsertKeepsBound(entries, order, key, value, now, cap, ttl);
      if |entries| >= cap && key !in entries {
        EvictionMakesRoom(entries, order, now, ttl);
        EvictOne(now, order);
        assert |entries| < cap;
      }
      entries := entries[key := Entry(value, now)];
    }

    method EvictOne(now: nat, order: seq<K>)
      requires IsOrder(order, entries)
      modifies this`entries
      ensures entries == M.EvictOne(old(entries), order, now, ttl)
    {
      var expired: Option<K> := None;
      var oldest: Option<K> := None;
      var i := 0;
      while i < |order|
        invariant 0 <= i <= |order|
        invariant expired.None? && (oldest.Some? ==> oldest.value in entries)
        invariant Scan(order, entries, now, ttl, None) == Scan(order[i..], entries, now, ttl, oldest)
      {
        var k := order[i];
        if Elapsed(now, entries[k].fetchedAt) >= ttl {
          expired := Some(k);
          break;
        }
        if oldest.None? || entries[k].fetchedAt < entries[oldest.value].fetchedAt {
          oldest := Some(k);
        }
        i := i + 1;
      }
      var victim := if expired.Some? then expired else oldest;
      if victim.Some? {
        entries := entries - {victim.value};
      }
    }

    method Clear()
      requires Valid()
      modifies this
      ensures Valid() && entries == map[] && epoch == old(epoch) + 1
    {
      epoch := epoch + 1;
      entries := map[];
    }

    method Invalidate(key: K)
      requires Valid()
      modifies this
      ensures Valid() && entries == old(entries) - {key} && epoch == old(epoch) + 1
    {
      epoch := epoch + 1;
      entries := entries - {key};
    }

    method Len() returns (n: nat)
      ensures n == |entries|
    {
      n := |entries|;
    }
  }

  // ----- Sequential runs over a changing source -----

  datatype Op<K, V> =
    | Write(key: K, value: V)
    | Invalidate(key: K)
    | Clear
    | Get(key: K, now: nat, nowAfter: nat, loaderFails: bool, order: seq<K>)

  /** What `get_or_load` answers. */
  function Answer<K(==), V, E>(m: Entries<K, V>, key: K, now: nat, loaded: Result<V, E>, ttl: nat): Result<V, E> {
    match LookupFresh(m, key, now, ttl)
    case Some(v) => Ok(v)
    case None => loaded
  }

  /** What `get_or_load` leaves. */
  function Loaded<K(==), V, E>(m: Entries<K, V>, order: seq<K>, key: K, now: nat, loaded: Result<V, E>, nowAfter: nat,
                               cap: nat, ttl: nat): Entries<K, V>
    requires forall k :: k in order ==> k in m
  {
    if LookupFresh(m, key, now, ttl).Some? || loaded.Err? then m
    else Insert(m, order, key, loaded.value, nowAfter, cap, ttl)
  }

  /** `dirty` are the keys written since they were last invalidated. */
  datatype World<!K, V> = World(source: K -> V, entries: Entries<K, V>, dirty: set<K>)

  function Start<K, V>(source: K -> V): World<K, V> {
    World(source, map[], {})
  }

  function LoaderOf<K, V>(w: World<K, V>, op: Op<K, V>): Result<V, ()>
    requires op.Get?
  {
    if op.loaderFails then Err(()) else Ok(w.source(op.key))
  }

  /** What `get_or_load` answers in `w`. */
  function AnswerIn<K(==), V>(w: World<K, V>, op: Op<K, V>, ttl: nat): Result<V, ()>
    requires op.Get?
  {
    Answer(w.entries, op.key, op.now, LoaderOf(w, op), ttl)
  }

  ghost predicate Legal<K(!new), V>(w: World<K, V>, op: Op<K, V>) {
    op.Get? ==> IsOrder(op.order, w.entries)
  }

  ghost function Do<K(!new), V>(w: World<K, V>, op: Op<K, V>, cap: nat, ttl: nat): World<K, V>
    requires Legal(w, op)
  {
    match op
    case Write(k, v) => w.(source := x => if x == k then v else w.source(x), dirty := w.dirty + {k})
    case Invalidate(k) => w.(entries := w.entries - {k}, dirty := w.dirty - {k})
    case Clear => w.(entries := map[], dirty := {})
    case Get(k, now, nowAfter, _, order) =>
      w.(entries := Loaded(w.entries, order, k, now, LoaderOf(w, op), nowAfter, cap, ttl))
  }

  /** What each operation does to the source, the map and the keys to invalidate. */
  lemma {:induction false} OperationsDo<K(!new), V>(w: World<K, V>, op: Op<K, V>, cap: nat, ttl: nat, x: K)
    requires Legal(w, op)
    ensures var w' := Do(w, op, cap, ttl);
      match op
      case Write(k, v) =>
        && w'.source(x) == (if x == k then v else w.source(x)) && w'.entries == w.entries
        && (x in w'.dirty <==> x in w.dirty || x == k)
      case Invalidate(k) =>
        && w'.source(x) == w.source(x) && (x in w'.dirty <==> x in w.dirty && x != k)
        && (x in w'.entries <==> x in w.entries && x != k)
        && (x in w'.entries ==> w'.entries[x] == w.entries[x])
      case Clear => w'.source(x) == w.source(x) && w'.dirty == {} && w'.entries == map[]
      case Get(_, _, _, _, _) => w'.source(x) == w.source(x) && w'.dirty == w.dirty
  {
  }

  /** `ops` can be run from `w`, no key being asked for while it is dirty. */
  ghost predicate Disciplined<K(!new), V>(w: World<K, V>, ops: seq<Op<K, V>>, cap: nat, ttl: nat)
    decreases |ops|
  {
    ops == [] ||
    (Legal(w, ops[0]) && (ops[0].Get? ==> ops[0].key !in w.dirty)
        && Disciplined(Do(w, ops[0], cap, ttl), ops[1..], cap, ttl))
  }

  ghost function Run<K(!new), V>(w: World<K, V>, ops: seq<Op<K, V>>, cap: nat, ttl: nat): World<K, V>
    requires Disciplined(w, ops, cap, ttl)
    decreases |ops|
  {
    if ops == [] then w else Run(Do(w, ops[0], cap, ttl), ops[1..], cap, ttl)
  }

  ghost predicate Coherent<K(!new), V>(w: World<K, V>, cap: nat) {
    && |w.entries| <= cap
    && forall k :: k in w.entries && k !in w.dirty ==> w.entries[k].value == w.source(k)
  }

  lemma {:induction false} DoKeepsCoherent<K(!new), V>(w: World<K, V>, op: Op<K, V>, cap: nat, ttl: nat)
    requires cap > 0 && Coherent(w, cap) && Legal(w, op)
    requires op.Get? ==> op.key !in w.dirty
    ensures Coherent(Do(w, op, cap, ttl), cap)
  {
    hide Insert, LookupFresh;
    match op
    case Get(k, now, nowAfter, _, order) =>
      InsertKeepsBound(w.entries, order, k, w.source(k), nowAfter, cap, ttl);
    case Invalidate(k) =>
    case _ =>
  }

  lemma {:induction false} RunKeepsCoherent<K(!new), V>(w: World<K, V>, ops: seq<Op<K, V>>, cap: nat, ttl: nat)
    requires cap > 0 && Coherent(w, cap) && Disciplined(w, ops, cap, ttl)
    ensures Coherent(Run(w, ops, cap, ttl), cap)
    decreases |ops|
  {
    if ops != [] {
      DoKeepsCoherent(w, ops[0], cap, ttl);
      RunKeepsCoherent(Do(w, ops[0], cap, ttl), ops[1..], cap, ttl);
    }
  }

  /** Transparency: after any run in which every written key is invalidated
      (or everything cleared) before it is next asked for, an answer is the
      present value of the source, whatever was evicted or has expired. It comes
      from the cache just when the key's entry is less than `ttl` old, and then
      whatever the loader does; an error is answered just when the loader fails
      and there is no such entry, and then the map keeps its contents. */
  lemma {:induction false} CacheIsTransparent<K(!new), V>(source: K -> V, ops: seq<Op<K, V>>, op: Op<K, V>, cap: nat,
                                                          ttl: nat)
    requires cap > 0 && ttl > 0 && op.Get? && Disciplined(Start(source), ops, cap, ttl)
    requires var w := Run(Start(source), ops, cap, ttl); Legal(w, op) && op.key !in w.dirty
    ensures var w := Run(Start(source), ops, cap, ttl);
      var hit := op.key in w.entries && op.now < w.entries[op.key].fetchedAt + ttl;
      && |w.entries| <= cap
      && AnswerIn(w, op, ttl) == (if hit || !op.loaderFails then Ok(w.source(op.key)) else Err(()))
      && (if hit || op.loaderFails then Do(w, op, cap, ttl).entries == w.entries
          else Stored(w.entries, Do(w, op, cap, ttl).entries, op.key, w.source(op.key), op.nowAfter, cap, ttl))
  {
    RunKeepsCoherent(Start(source), ops, cap, ttl);
    var w := Run(Start(source), ops, cap, ttl);
    if op.key in w.entries { ExpiredExactly(w.entries[op.key], op.now, ttl); }
    InsertStores(w.entries, op.order, op.key, w.source(op.key), op.nowAfter, cap, ttl);
  }
}
