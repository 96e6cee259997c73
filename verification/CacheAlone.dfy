/** The protocol run by one client with no other in its way: what a load, a
    failing load and an invalidation come to, in plain times. */
module CacheAlone {
  import opened Results
  import opened CacheModel
  import opened CacheProtocol

  /** The client is idle, the lock is free, and the map is within its bounds. */
  ghost predicate Quiet<K(!new), V>(c: Config<K, V>, s: State<K, V>, t: nat) {
    t in s.pcs && s.pcs[t].Idle? && s.lock == None && c.cap > 0 && c.ttl > 0 && |s.entries| <= c.cap
  }

  predicate Held<K(==), V>(c: Config<K, V>, s: State<K, V>, k: K) {
    k in s.entries && s.now < s.entries[k].fetchedAt + c.ttl
  }

  lemma {:induction false} Here<K(!new), V(!new)>(c: Config<K, V>, s: State<K, V>)
    ensures Leads(c, s, s)
  {
    assert Exec(c, s, []) == Some(s);
  }

  lemma {:induction false} MovedTwice<K, V>(s: State<K, V>, t: nat, p: Pc<K, V>, q: Pc<K, V>)
    ensures Goto(Goto(s, t, p), t, q) == Goto(s, t, q)
  {
    assert s.pcs[t := p][t := q] == s.pcs[t := q];
  }

  /** A call goes as far as its lookup: it hits just when the map holds the key
      and its time to live is not over. */
  lemma {:induction false} LooksUp<K(!new), V(!new)>(c: Config<K, V>, s: State<K, V>, t: nat, k: K)
    returns (s': State<K, V>)
    requires Quiet(c, s, t)
    ensures Leads(c, s, s') && s' == Goto(s, t, if Held(c, s, k) then Hit(k, s.entries[k].value) else Missed(k))
  {
    hide Leads, Exec;
    Here(c, s);
    s' := Then(c, s, s, Call(t, k));
    s' := Then(c, s, s', Lookup(t));
    if k in s.entries { ExpiredExactly(s.entries[k], s.now, c.ttl); }
    MovedTwice(s, t, Called(k, s.now), s'.pcs[t]);
  }

  lemma {:induction false} LoadsAndLocks<K(!new), V(!new)>(c: Config<K, V>, s: State<K, V>, t: nat, k: K,
                                                           m: State<K, V>) returns (s': State<K, V>)
    requires s.lock == None && Leads(c, s, m) && m == Goto(s, t, Missed(k))
    ensures var r := Read(SourceAt(c, s.writes, k, |s.writes|), |s.writes|);
      Leads(c, s, s') && s' == Goto(s, t, Checked(k, s.epoch, r, s.now)).(lock := Some(t))
  {
    hide Leads, Exec;
    s' := Then(c, s, m, Snapshot(t));
    MovedTwice(s, t, m.pcs[t], s'.pcs[t]);
    var a := s';
    s' := Then(c, s, s', Load(t));
    MovedTwice(s, t, a.pcs[t], s'.pcs[t]);
    a := s';
    s' := Then(c, s, s', Sample(t));
    MovedTwice(s, t, a.pcs[t], s'.pcs[t]);
    a := s';
    s' := Then(c, s, s', Acquire(t));
    MovedTwice(s, t, a.pcs[t], s'.pcs[t]);
    a := s';
    s' := Then(c, s, s', Check(t));
    MovedTwice(s, t, a.pcs[t], s'.pcs[t]);
  }

  /** A load alone answers the source's present value and stores it under the
      present time, one good victim going if the map is full. */
  lemma {:induction false} LoadAlone<K(!new), V(!new)>(c: Config<K, V>, s: State<K, V>, t: nat, k: K, order: seq<K>)
    returns (s': State<K, V>)
    requires Quiet(c, s, t) && !Held(c, s, k) && IsOrder(order, s.entries)
    ensures var r := Read(SourceAt(c, s.writes, k, |s.writes|), |s.writes|);
      && Leads(c, s, s') && s' == Goto(s, t, Answered(k, r)).(entries := s'.entries)
      && Stored(s.entries, s'.entries, k, r, s.now, c.cap, c.ttl)
  {
    hide Leads, Exec, Insert, Stored;
    var m := LooksUp(c, s, t, k);
    var a := LoadsAndLocks(c, s, t, k, m);
    var r := Read(SourceAt(c, s.writes, k, |s.writes|), |s.writes|);
    InsertStores(s.entries, order, k, r, s.now, c.cap, c.ttl);
    s' := Then(c, s, a, Put(t, order));
    assert s'.pcs == s.pcs[t := Leaving(k, r)];
    s' := Then(c, s, s', Release(t));
    assert s'.pcs == s.pcs[t := Answered(k, r)];
  }

  /** The clock goes on and the source is written with no client's leave. */
  lemma {:induction false} WorldMoves<K(!new), V(!new)>(c: Config<K, V>, s: State<K, V>, dt: nat, k: K, v: V, x: K)
    ensures Leads(c, s, s.(now := s.now + dt))
    ensures Leads(c, s, s.(writes := s.writes + [(k, v)]))
    ensures SourceAt(c, s.writes + [(k, v)], x, |s.writes| + 1)
         == if x == k then v else SourceAt(c, s.writes, x, |s.writes|)
    ensures SourceAt(c, [], x, 0) == c.source(x)
  {
    hide Leads, Exec;
    Here(c, s);
    var ticked := Then(c, s, s, Tick(dt));
    var written := Then(c, s, s, Write(k, v));
    SourceAtPrefix(c, s.writes, [(k, v)], x, |s.writes|);
  }

  /** A loader that fails leaves the map as it was. */
  lemma {:induction false} FailureAlone<K(!new), V(!new)>(c: Config<K, V>, s: State<K, V>, t: nat, k: K)
    returns (s': State<K, V>)
    requires Quiet(c, s, t) && !Held(c, s, k)
    ensures Leads(c, s, s') && s' == Goto(s, t, Failed(k))
  {
    hide Leads, Exec;
    var m := LooksUp(c, s, t, k);
    s' := Then(c, s, m, Snapshot(t));
    MovedTwice(s, t, m.pcs[t], s'.pcs[t]);
    var a := s';
    s' := Then(c, s, s', LoadFails(t));
    MovedTwice(s, t, a.pcs[t], s'.pcs[t]);
  }

  lemma {:induction false} BumpAlone<K(!new), V(!new)>(c: Config<K, V>, s: State<K, V>, t: nat, target: Target<K>)
    returns (s': State<K, V>)
    requires Quiet(c, s, t)
    ensures Leads(c, s, s')
    ensures s' == Goto(s, t, Bumped(target, |s.writes|, |s.bumps|))
                  .(epoch := s.epoch + 1, bumps := s.bumps + [Bump(target, |s.writes|)])
  {
    hide Leads, Exec;
    Here(c, s);
    s' := Then(c, s, s, Ask(t, target));
    s' := Then(c, s, s', BumpEpoch(t));
    MovedTwice(s, t, Asked(target, |s.writes|), s'.pcs[t]);
  }

  /** What is left of the map. */
  lemma {:induction false} WithoutIs<K(!new), V>(m: Entries<K, V>, target: Target<K>)
    ensures forall k :: k in Without(m, target) <==> k in m && target != Everything && target != Only(k)
    ensures forall k :: k in Without(m, target) ==> Without(m, target)[k] == m[k]
  {
  }

  /** From its bump on, the client takes the lock, removes, and lets go. */
  lemma {:induction false} RemoveAlone<K(!new), V(!new)>(c: Config<K, V>, s: State<K, V>, m: State<K, V>, t: nat)
    returns (s': State<K, V>)
    requires Leads(c, s, m) && m.lock == None && t in m.pcs && m.pcs[t].Bumped?
    ensures var p := m.pcs[t];
      && Leads(c, s, s')
      && s' == Goto(m, t, Returned(p.target, p.since, p.ticket))
               .(entries := Without(m.entries, p.target), removed := m.removed + {p.ticket})
  {
    hide Leads, Exec, Without, SourceAt, Insert, LookupFresh;
    var p := m.pcs[t];
    var held := Then(c, s, m, Acquire(t));
    var gone := Then(c, s, held, Remove(t));
    MovedTwice(m, t, Holding(p.target, p.since, p.ticket), Removed(p.target, p.since, p.ticket));
    s' := Then(c, s, gone, Release(t));
    MovedTwice(m, t, Removed(p.target, p.since, p.ticket), Returned(p.target, p.since, p.ticket));
  }

  /** An invalidation alone takes away the entry of its key, or every entry, and
      moves the epoch by one. */
  lemma {:induction false} InvalidateAlone<K(!new), V(!new)>(c: Config<K, V>, s: State<K, V>, t: nat, target: Target<K>)
    returns (s': State<K, V>)
    requires Quiet(c, s, t)
    ensures Leads(c, s, s') && s'.epoch == s.epoch + 1 && s'.lock == None && s'.now == s.now && s'.writes == s.writes
    ensures s'.pcs == s.pcs[t := Returned(target, |s.writes|, |s.bumps|)]
    ensures forall k :: k in s'.entries <==> k in s.entries && target != Everything && target != Only(k)
    ensures forall k :: k in s'.entries ==> s'.entries[k] == s.entries[k]
  {
    hide Leads, Exec, Without;
    var m := BumpAlone(c, s, t, target);
    s' := RemoveAlone(c, s, m, t);
    MovedTwice(s, t, m.pcs[t], s'.pcs[t]);
    WithoutIs(s.entries, target);
  }

  /** A load overtaken by an invalidation of whatever key, between its snapshot
      and its check, answers what it read and stores nothing. */
  lemma {:induction false} OvertakenLoad<K(!new), V(!new)>(c: Config<K, V>, s: State<K, V>, t: nat)
    returns (s': State<K, V>)
    requires t in s.pcs && s.pcs[t].Locked? && s.lock == Some(t)
    ensures var p := s.pcs[t];
      p.epoch != s.epoch ==> Leads(c, s, s') && s' == Goto(s, t, Answered(p.key, p.read)).(lock := None)
  {
    hide Leads, Exec;
    var p := s.pcs[t];
    Here(c, s);
    s' := Then(c, s, s, Check(t));
    if p.epoch != s.epoch {
      s' := Then(c, s, s', Release(t));
      assert s'.pcs == s.pcs[t := Answered(p.key, p.read)];
    }
  }
}
