/** The cache under concurrency: any number of clients, each between two of
    the atomic steps of `get_or_load`, `clear` or `invalidate`, over a source
    that other parties may write at any moment.

    The epoch check and the insertion are two steps under one held lock; the
    bump of the epoch takes no lock. Values read from the source are stamped
    with the number of writes made so far, and `bumps` and `removed` record
    which invalidations have bumped and which have removed; no step looks at
    these records. */
module CacheProtocol {
  import opened Results
  import opened CacheModel

  /** What an invalidation is about. */
  datatype Target<K(==)> = Only(key: K) | Everything {
    predicate Covers(k: K) {
      Everything? || key == k
    }
  }

  /** A value read when `stamp` writes had been made. */
  datatype Read<V> = Read(value: V, stamp: nat)

  /** Where a client stands. `since` is the number of writes made before the
      call to `clear`/`invalidate`, `ticket` its place among the bumps. */
  datatype Pc<K, V> =
    | Idle
    | Called(key: K, now: nat)
    | Hit(key: K, read: Read<V>)
    | Missed(key: K)
    | Snapped(key: K, epoch: nat)
    | Loaded(key: K, epoch: nat, read: Read<V>)
    | Sampled(key: K, epoch: nat, read: Read<V>, now: nat)
    | Locked(key: K, epoch: nat, read: Read<V>, now: nat)
    | Checked(key: K, epoch: nat, read: Read<V>, now: nat)
    | Leaving(key: K, read: Read<V>)
    | Answered(key: K, read: Read<V>)
    | Failed(key: K)
    | Asked(target: Target<K>, since: nat)
    | Bumped(target: Target<K>, since: nat, ticket: nat)
    | Holding(target: Target<K>, since: nat, ticket: nat)
    | Removed(target: Target<K>, since: nat, ticket: nat)
    | Returned(target: Target<K>, since: nat, ticket: nat)

  datatype Bump<K> = Bump(target: Target<K>, since: nat)

  datatype Config<!K, V> = Config(source: K -> V, cap: nat, ttl: nat)

  datatype State<K, V> = State(
    now: nat,
    writes: seq<(K, V)>,
    epoch: nat,
    lock: Option<nat>,
    entries: Entries<K, Read<V>>,
    pcs: map<nat, Pc<K, V>>,
    bumps: seq<Bump<K>>,
    removed: set<nat>)

  datatype Step<K, V> =
    | Tick(dt: nat)
    | Write(key: K, value: V)
    | Call(t: nat, key: K)
    | Lookup(t: nat)
    | Snapshot(t: nat)
    | Load(t: nat)
    | LoadFails(t: nat)
    | Sample(t: nat)
    | Acquire(t: nat)
    | Check(t: nat)
    | Put(t: nat, order: seq<K>)
    | Release(t: nat)
    | Ask(t: nat, target: Target<K>)
    | BumpEpoch(t: nat)
    | Remove(t: nat)
    | Finish(t: nat)

  /** The source's value for `k` after the first `n` writes. */
  function SourceAt<K(==), V>(c: Config<K, V>, writes: seq<(K, V)>, k: K, n: nat): V
    requires n <= |writes|
  {
    if n == 0 then c.source(k)
    else if writes[n - 1].0 == k then writes[n - 1].1
    else SourceAt(c, writes, k, n - 1)
  }

  ghost predicate Enabled<K(!new), V>(s: State<K, V>, step: Step<K, V>) {
    match step
    case Tick(_) => true
    case Write(_, _) => true
    case Call(t, _) => t in s.pcs && s.pcs[t].Idle?
    case Lookup(t) => t in s.pcs && s.pcs[t].Called? && s.lock.None?
    case Snapshot(t) => t in s.pcs && s.pcs[t].Missed?
    case Load(t) => t in s.pcs && s.pcs[t].Snapped?
    case LoadFails(t) => t in s.pcs && s.pcs[t].Snapped?
    case Sample(t) => t in s.pcs && s.pcs[t].Loaded?
    case Acquire(t) => t in s.pcs && (s.pcs[t].Sampled? || s.pcs[t].Bumped?) && s.lock.None?
    case Check(t) => t in s.pcs && s.pcs[t].Locked?
    case Put(t, order) => t in s.pcs && s.pcs[t].Checked? && IsOrder(order, s.entries)
    case Release(t) => t in s.pcs && (s.pcs[t].Leaving? || s.pcs[t].Removed?)
    case Ask(t, _) => t in s.pcs && s.pcs[t].Idle?
    case BumpEpoch(t) => t in s.pcs && s.pcs[t].Asked?
    case Remove(t) => t in s.pcs && s.pcs[t].Holding?
    case Finish(t) => t in s.pcs && (s.pcs[t].Hit? || s.pcs[t].Answered? || s.pcs[t].Failed? || s.pcs[t].Returned?)
  }

  function Current<K(==), V>(c: Config<K, V>, s: State<K, V>, k: K): Read<V> {
    Read(SourceAt(c, s.writes, k, |s.writes|), |s.writes|)
  }

  function Without<K(==), V>(m: Entries<K, V>, target: Target<K>): Entries<K, V> {
    match target
    case Only(k) => m - {k}
    case Everything => map[]
  }

  ghost function Apply<K(!new), V>(c: Config<K, V>, s: State<K, V>, step: Step<K, V>): State<K, V>
    requires Enabled(s, step)
  {
    match step
    case Tick(dt) => s.(now := s.now + dt)
    case Write(k, v) => s.(writes := s.writes + [(k, v)])
    case Call(t, k) => Goto(s, t, Called(k, s.now))
    case Lookup(t) =>
      var p := s.pcs[t];
      var found := LookupFresh(s.entries, p.key, p.now, c.ttl);
      Goto(s, t, if found.Some? then Hit(p.key, found.value) else Missed(p.key))
    case Snapshot(t) => Goto(s, t, Snapped(s.pcs[t].key, s.epoch))
    case Load(t) =>
      var p := s.pcs[t];
      Goto(s, t, Loaded(p.key, p.epoch, Current(c, s, p.key)))
    case LoadFails(t) => Goto(s, t, Failed(s.pcs[t].key))
    case Sample(t) =>
      var p := s.pcs[t];
      Goto(s, t, Sampled(p.key, p.epoch, p.read, s.now))
    case Acquire(t) =>
      var p := s.pcs[t];
      Goto(s, t, if p.Sampled? then Locked(p.key, p.epoch, p.read, p.now) else Holding(p.target, p.since, p.ticket))
      .(lock := Some(t))
    case Check(t) =>
      var p := s.pcs[t];
      Goto(s, t, if s.epoch != p.epoch then Leaving(p.key, p.read) else Checked(p.key, p.epoch, p.read, p.now))
    case Put(t, order) =>
      var p := s.pcs[t];
      Goto(s, t, Leaving(p.key, p.read)).(entries := Insert(s.entries, order, p.key, p.read, p.now, c.cap, c.ttl))
    case Release(t) =>
      var p := s.pcs[t];
      Goto(s, t, if p.Leaving? then Answered(p.key, p.read) else Returned(p.target, p.since, p.ticket)).(lock := None)
    case Ask(t, target) => Goto(s, t, Asked(target, |s.writes|))
    case BumpEpoch(t) =>
      var p := s.pcs[t];
      Goto(s, t, Bumped(p.target, p.since, |s.bumps|))
      .(epoch := s.epoch + 1, bumps := s.bumps + [Bump(p.target, p.since)])
    case Remove(t) =>
      var p := s.pcs[t];
      Goto(s, t, Removed(p.target, p.since, p.ticket))
      .(entries := Without(s.entries, p.target), removed := s.removed + {p.ticket})
    case Finish(t) => Goto(s, t, Idle)
  }

  function Goto<K, V>(s: State<K, V>, t: nat, p: Pc<K, V>): State<K, V> {
    s.(pcs := s.pcs[t := p])
  }

  function Init<K, V>(clients: set<nat>): State<K, V> {
    State(0, [], 0, None, map[], map t | t in clients :: Idle, [], {})
  }

  /** The state after `steps`, if each is enabled in its turn. */
  ghost function Exec<K(!new), V>(c: Config<K, V>, s: State<K, V>, steps: seq<Step<K, V>>): Option<State<K, V>>
    decreases |steps|
  {
    if steps == [] then Some(s)
    else if Enabled(s, steps[0]) then Exec(c, Apply(c, s, steps[0]), steps[1..])
    else None
  }

  // ----- The invariant -----

  /** `r` is what the source held for `k` at its stamp. */
  ghost predicate Genuine<K(!new), V>(c: Config<K, V>, writes: seq<(K, V)>, k: K, r: Read<V>) {
    r.stamp <= |writes| && r.value == SourceAt(c, writes, k, r.stamp)
  }

  /** `r` was read after everything written before bump `b` was asked for,
      unless that bump is not about `k`. */
  ghost predicate After<K(!new), V>(b: Bump<K>, k: K, r: Read<V>) {
    b.target.Covers(k) ==> r.stamp >= b.since
  }

  ghost predicate Fenced<K(!new), V>(bumps: seq<Bump<K>>, k: K, r: Read<V>, epoch: nat) {
    epoch <= |bumps| && forall i :: 0 <= i < epoch ==> After(bumps[i], k, r)
  }

  ghost predicate Ticketed<K(!new)>(bumps: seq<Bump<K>>, target: Target<K>, since: nat, ticket: nat) {
    ticket < |bumps| && bumps[ticket] == Bump(target, since)
  }

  predicate NeedsLock<K, V>(p: Pc<K, V>) {
    p.Locked? || p.Checked? || p.Leaving? || p.Holding? || p.Removed?
  }

  /** What a client has read is genuine. */
  ghost predicate ReadOk<K(!new), V>(c: Config<K, V>, writes: seq<(K, V)>, p: Pc<K, V>) {
    && (p.Loaded? || p.Sampled? || p.Locked? || p.Checked? || p.Leaving? || p.Answered? || p.Hit?
        ==> Genuine(c, writes, p.key, p.read))
    && (p.Asked? ==> p.since <= |writes|)
  }

  /** What a client has read is fenced by the epoch it saw first; once its
      check has passed, that epoch covers every removal made. */
  ghost predicate FenceOk<K(!new), V>(bumps: seq<Bump<K>>, removed: set<nat>, p: Pc<K, V>) {
    && (p.Snapped? ==> p.epoch <= |bumps|)
    && (p.Loaded? || p.Sampled? || p.Locked? || p.Checked? ==> Fenced(bumps, p.key, p.read, p.epoch))
    && (p.Checked? ==> forall i :: i in removed ==> i < p.epoch)
    && (p.Bumped? || p.Holding? || p.Removed? || p.Returned? ==> Ticketed(bumps, p.target, p.since, p.ticket))
    && (p.Removed? || p.Returned? ==> p.ticket in removed)
  }

  ghost predicate EntryOk<K(!new), V>(bumps: seq<Bump<K>>, removed: set<nat>, k: K, r: Read<V>) {
    forall i :: i in removed && i < |bumps| ==> After(bumps[i], k, r)
  }

  ghost predicate EntriesOk<K(!new), V>(c: Config<K, V>, writes: seq<(K, V)>, bumps: seq<Bump<K>>, removed: set<nat>,
                                        entries: Entries<K, Read<V>>) {
    && |entries| <= c.cap
    && (forall k :: k in entries ==> Genuine(c, writes, k, entries[k].value))
    && (forall k :: k in entries ==> EntryOk(bumps, removed, k, entries[k].value))
  }

  ghost predicate Inv<K(!new), V>(c: Config<K, V>, s: State<K, V>) {
    && s.epoch == |s.bumps|
    && (forall i :: i in s.removed ==> i < |s.bumps|)
    && (forall i :: 0 <= i < |s.bumps| ==> s.bumps[i].since <= |s.writes|)
    && EntriesOk(c, s.writes, s.bumps, s.removed, s.entries)
    && (forall t :: t in s.pcs && NeedsLock(s.pcs[t]) ==> s.lock == Some(t))
    && (forall t :: t in s.pcs ==> ReadOk(c, s.writes, s.pcs[t]))
    && (forall t :: t in s.pcs ==> FenceOk(s.bumps, s.removed, s.pcs[t]))
  }

  lemma {:induction false} SourceAtPrefix<K(!new), V>(c: Config<K, V>, writes: seq<(K, V)>, more: seq<(K, V)>, k: K,
                                          n: nat)
    requires n <= |writes|
    ensures SourceAt(c, writes + more, k, n) == SourceAt(c, writes, k, n)
  {
    if n > 0 { SourceAtPrefix(c, writes, more, k, n - 1); }
  }

  lemma {:induction false} WriteKeepsInv<K(!new), V>(c: Config<K, V>, s: State<K, V>, step: Step<K, V>)
    requires Inv(c, s) && step.Write?
    ensures Inv(c, Apply(c, s, step))
  {
    var s' := Apply(c, s, step);
    forall k, n: nat | n <= |s.writes|
      ensures SourceAt(c, s'.writes, k, n) == SourceAt(c, s.writes, k, n)
    {
      SourceAtPrefix(c, s.writes, [(step.key, step.value)], k, n);
    }
  }

  /** One client moving to `p`, taking, keeping or giving back the lock. */
  lemma {:induction false} MoveKeepsInv<K(!new), V>(c: Config<K, V>, s: State<K, V>, t: nat, p: Pc<K, V>,
                                          lock: Option<nat>)
    requires Inv(c, s) && t in s.pcs
    requires ReadOk(c, s.writes, p) && FenceOk(s.bumps, s.removed, p)
    requires lock == s.lock || s.lock == None || s.lock == Some(t)
    requires NeedsLock(p) ==> lock == Some(t)
    ensures Inv(c, Goto(s, t, p).(lock := lock))
  {
  }

  /** Inserting a fenced value whose epoch covers every removal made. */
  lemma {:induction false} InsertKeepsEntriesOk<K(!new), V>(c: Config<K, V>, writes: seq<(K, V)>, bumps: seq<Bump<K>>,
                                          removed: set<nat>,
                                         m: Entries<K, Read<V>>, order: seq<K>, k: K, r: Read<V>, epoch: nat, now: nat)
    requires c.cap > 0 && EntriesOk(c, writes, bumps, removed, m) && IsOrder(order, m)
    requires Genuine(c, writes, k, r) && Fenced(bumps, k, r, epoch) && forall i :: i in removed ==> i < epoch
    ensures EntriesOk(c, writes, bumps, removed, Insert(m, order, k, r, now, c.cap, c.ttl))
  {
    hide After, SourceAt, Genuine, Insert;
    InsertKeepsBound(m, order, k, r, now, c.cap, c.ttl);
    assert EntryOk(bumps, removed, k, r);
  }

  lemma {:induction false} PutKeepsInv<K(!new), V>(c: Config<K, V>, s: State<K, V>, step: Step<K, V>)
    requires c.cap > 0 && Inv(c, s) && Enabled(s, step) && step.Put?
    ensures Inv(c, Apply(c, s, step))
  {
    var p := s.pcs[step.t];
    assert FenceOk(s.bumps, s.removed, p) && ReadOk(c, s.writes, p);
    InsertKeepsEntriesOk(c, s.writes, s.bumps, s.removed, s.entries, step.order, p.key, p.read, p.epoch, p.now);
    var entries := Insert(s.entries, step.order, p.key, p.read, p.now, c.cap, c.ttl);
    MoveKeepsInv(c, s.(entries := entries), step.t, Leaving(p.key, p.read), s.lock);
  }

  lemma {:induction false} RemovalKeepsEntriesOk<K(!new), V>(c: Config<K, V>, writes: seq<(K, V)>, bumps: seq<Bump<K>>,
                                          removed: set<nat>,
                                          m: Entries<K, Read<V>>, target: Target<K>, ticket: nat)
    requires EntriesOk(c, writes, bumps, removed, m) && ticket < |bumps| && bumps[ticket].target == target
    ensures EntriesOk(c, writes, bumps, removed + {ticket}, Without(m, target))
  {
    if target.Only? {
      assert (m - {target.key}).Keys == m.Keys - {target.key};
      assert |(m - {target.key}).Keys| <= |m.Keys|;
    }
    forall k | k in Without(m, target)
      ensures EntryOk(bumps, removed + {ticket}, k, Without(m, target)[k].value)
    {
      assert EntryOk(bumps, removed, k, m[k].value);
    }
  }

  /** A removal: every client that has passed its check holds the lock, so
      none is about to insert. */
  lemma {:induction false} RemoveKeepsInv<K(!new), V>(c: Config<K, V>, s: State<K, V>, step: Step<K, V>)
    requires Inv(c, s) && Enabled(s, step) && step.Remove?
    ensures Inv(c, Apply(c, s, step))
  {
    hide Inv, FenceOk;
    var p := s.pcs[step.t];
    HoldingIsTicketed(c, s, step.t);
    DropKeepsInv(c, s, step.t);
    MoveKeepsInv(c, Dropped(s, step.t), step.t, Removed(p.target, p.since, p.ticket), s.lock);
  }

  /** The state with the entries gone and the client not yet moved on. */
  function Dropped<K(==), V>(s: State<K, V>, t: nat): State<K, V>
    requires t in s.pcs && s.pcs[t].Holding?
  {
    s.(entries := Without(s.entries, s.pcs[t].target), removed := s.removed + {s.pcs[t].ticket})
  }

  lemma {:induction false} DropKeepsInv<K(!new), V>(c: Config<K, V>, s: State<K, V>, t: nat)
    requires Inv(c, s) && t in s.pcs && s.pcs[t].Holding?
    ensures Inv(c, Dropped(s, t))
  {
    hide EntriesOk, ReadOk, FenceOk;
    var p, s' := s.pcs[t], Dropped(s, t);
    HoldingIsTicketed(c, s, t);
    RemovalKeepsEntriesOk(c, s.writes, s.bumps, s.removed, s.entries, p.target, p.ticket);
    forall u | u in s.pcs
      ensures FenceOk(s'.bumps, s'.removed, s.pcs[u])
    {
      assert FenceOk(s.bumps, s.removed, s.pcs[u]);
      assert NeedsLock(p) && (NeedsLock(s.pcs[u]) ==> s.lock == Some(u));
      RemovalKeepsFence(s.bumps, s.removed, s.pcs[u], p.ticket);
    }
  }

  /** The client that removes has its bump, and is fenced once it has removed. */
  lemma {:induction false} HoldingIsTicketed<K(!new), V>(c: Config<K, V>, s: State<K, V>, t: nat)
    requires Inv(c, s) && t in s.pcs && s.pcs[t].Holding?
    ensures var p := s.pcs[t];
      && p.ticket < |s.bumps| && s.bumps[p.ticket].target == p.target && s.lock == Some(t)
      && FenceOk<K, V>(s.bumps, s.removed + {p.ticket}, Removed(p.target, p.since, p.ticket))
      && ReadOk(c, s.writes, Removed(p.target, p.since, p.ticket))
  {
    hide EntriesOk, Genuine;
    assert FenceOk(s.bumps, s.removed, s.pcs[t]);
  }

  lemma {:induction false} RemovalKeepsFence<K(!new), V>(bumps: seq<Bump<K>>, removed: set<nat>, p: Pc<K, V>,
                                          ticket: nat)
    requires FenceOk(bumps, removed, p) && !p.Checked?
    ensures FenceOk(bumps, removed + {ticket}, p)
  {
  }

  lemma {:induction false} BumpKeepsInv<K(!new), V>(c: Config<K, V>, s: State<K, V>, step: Step<K, V>)
    requires Inv(c, s) && Enabled(s, step) && step.BumpEpoch?
    ensures Inv(c, Apply(c, s, step))
  {
    hide EntriesOk, FenceOk, Genuine;
    var p, s' := s.pcs[step.t], Apply(c, s, step);
    var b := Bump(p.target, p.since);
    BumpKeepsEntriesOk(c, s.writes, s.bumps, s.removed, s.entries, b);
    forall t | t in s'.pcs
      ensures FenceOk(s'.bumps, s'.removed, s'.pcs[t])
    {
      assert FenceOk(s.bumps, s.removed, s.pcs[t]);
      if t != step.t {
        BumpKeepsFence(s.bumps, s.removed, s.pcs[t], b);
      } else {
        BumpedIsTicketed<K, V>(s.bumps, s.removed, b);
      }
    }
  }

  lemma {:induction false} BumpKeepsFence<K(!new), V>(bumps: seq<Bump<K>>, removed: set<nat>, p: Pc<K, V>, b: Bump<K>)
    requires FenceOk(bumps, removed, p)
    ensures FenceOk(bumps + [b], removed, p)
  {
    hide After;
  }

  lemma {:induction false} BumpedIsTicketed<K(!new), V>(bumps: seq<Bump<K>>, removed: set<nat>, b: Bump<K>)
    ensures FenceOk<K, V>(bumps + [b], removed, Bumped(b.target, b.since, |bumps|))
  {
  }

  lemma {:induction false} BumpKeepsEntriesOk<K(!new), V>(c: Config<K, V>, writes: seq<(K, V)>, bumps: seq<Bump<K>>,
                                          removed: set<nat>,
                                                          m: Entries<K, Read<V>>, b: Bump<K>)
    requires EntriesOk(c, writes, bumps, removed, m) && forall i :: i in removed ==> i < |bumps|
    ensures EntriesOk(c, writes, bumps + [b], removed, m)
  {
    hide After, Genuine;
    forall k | k in m
      ensures EntryOk(bumps + [b], removed, k, m[k].value)
    {
      assert EntryOk(bumps, removed, k, m[k].value);
    }
  }

  /** The steps that leave the map, the source and the bumps alone. */
  lemma {:induction false} QuietStepKeepsInv<K(!new), V>(c: Config<K, V>, s: State<K, V>, step: Step<K, V>)
    requires Inv(c, s) && Enabled(s, step)
    requires !step.Write? && !step.Put? && !step.Remove? && !step.BumpEpoch?
    ensures Inv(c, Apply(c, s, step))
  {
    hide EntriesOk, ReadOk, FenceOk;
    if !step.Tick? {
      var s' := Apply(c, s, step);
      var p := s'.pcs[step.t];
      QuietPcOk(c, s, step);
      MoveKeepsInv(c, s, step.t, p, s'.lock);
      assert s' == Goto(s, step.t, p).(lock := s'.lock);
    }
  }

  lemma {:induction false} QuietPcOk<K(!new), V>(c: Config<K, V>, s: State<K, V>, step: Step<K, V>)
    requires Inv(c, s) && Enabled(s, step)
    requires !step.Write? && !step.Put? && !step.Remove? && !step.BumpEpoch? && !step.Tick?
    ensures var p := Apply(c, s, step).pcs[step.t];
      ReadOk(c, s.writes, p) && FenceOk(s.bumps, s.removed, p)
  {
    hide ReadOk, FenceOk;
    if step.Lookup? {
      LookupPcOk(c, s, step.t);
    } else if step.Load? {
      LoadPcOk(c, s, step.t);
    } else {
      OwnPcOk(c, s, step);
    }
  }

  lemma {:induction false} LookupPcOk<K(!new), V>(c: Config<K, V>, s: State<K, V>, t: nat)
    requires Enabled(s, Lookup(t)) && EntriesOk(c, s.writes, s.bumps, s.removed, s.entries)
    ensures var p := Apply(c, s, Lookup(t)).pcs[t];
      ReadOk(c, s.writes, p) && FenceOk(s.bumps, s.removed, p)
  {
    hide SourceAt, Genuine, EntryOk;
    var p := s.pcs[t];
    if LookupFresh(s.entries, p.key, p.now, c.ttl).Some? {
      assert Genuine(c, s.writes, p.key, s.entries[p.key].value);
    }
  }

  lemma {:induction false} LoadPcOk<K(!new), V>(c: Config<K, V>, s: State<K, V>, t: nat)
    requires Inv(c, s) && Enabled(s, Load(t))
    ensures var p := Apply(c, s, Load(t)).pcs[t];
      ReadOk(c, s.writes, p) && FenceOk(s.bumps, s.removed, p)
  {
    hide EntriesOk, Fenced;
    assert FenceOk(s.bumps, s.removed, s.pcs[t]);
    LoadIsFenced(c, s, s.pcs[t].key, s.pcs[t].epoch);
  }

  /** A step in which the client looks at no more than its own state and the epoch. */
  lemma {:induction false} OwnPcOk<K(!new), V>(c: Config<K, V>, s: State<K, V>, step: Step<K, V>)
    requires Enabled(s, step) && !step.Write? && !step.Put? && !step.Remove? && !step.BumpEpoch? && !step.Tick?
    requires !step.Lookup? && !step.Load? && s.epoch == |s.bumps| && forall i :: i in s.removed ==> i < |s.bumps|
    requires ReadOk(c, s.writes, s.pcs[step.t]) && FenceOk(s.bumps, s.removed, s.pcs[step.t])
    ensures var p := Apply(c, s, step).pcs[step.t];
      ReadOk(c, s.writes, p) && FenceOk(s.bumps, s.removed, p)
  {
    hide ReadOk, FenceOk;
    if step.Acquire? || step.Check? || step.Release? { LockPcOk(c, s, step); } else { FreePcOk(c, s, step); }
  }

  lemma {:induction false} LockPcOk<K(!new), V>(c: Config<K, V>, s: State<K, V>, step: Step<K, V>)
    requires Enabled(s, step) && (step.Acquire? || step.Check? || step.Release?)
    requires s.epoch == |s.bumps| && forall i :: i in s.removed ==> i < |s.bumps|
    requires ReadOk(c, s.writes, s.pcs[step.t]) && FenceOk(s.bumps, s.removed, s.pcs[step.t])
    ensures var p := Apply(c, s, step).pcs[step.t];
      ReadOk(c, s.writes, p) && FenceOk(s.bumps, s.removed, p)
  {
    hide Genuine, Fenced, Ticketed;
  }

  lemma {:induction false} FreePcOk<K(!new), V>(c: Config<K, V>, s: State<K, V>, step: Step<K, V>)
    requires Enabled(s, step) && s.epoch == |s.bumps|
    requires step.Call? || step.Snapshot? || step.LoadFails? || step.Sample? || step.Ask? || step.Finish?
    requires ReadOk(c, s.writes, s.pcs[step.t]) && FenceOk(s.bumps, s.removed, s.pcs[step.t])
    ensures var p := Apply(c, s, step).pcs[step.t];
      ReadOk(c, s.writes, p) && FenceOk(s.bumps, s.removed, p)
  {
    hide Genuine, Fenced, Ticketed;
  }

  /** A value read now was read after everything written so far. */
  lemma {:induction false} LoadIsFenced<K(!new), V>(c: Config<K, V>, s: State<K, V>, k: K, epoch: nat)
    requires Inv(c, s) && epoch <= |s.bumps|
    ensures Fenced(s.bumps, k, Current(c, s, k), epoch) && Genuine(c, s.writes, k, Current(c, s, k))
  {
  }

  /** Every step of every client keeps the invariant. */
  lemma {:induction false} StepKeepsInv<K(!new), V>(c: Config<K, V>, s: State<K, V>, step: Step<K, V>)
    requires c.cap > 0 && Inv(c, s) && Enabled(s, step)
    ensures Inv(c, Apply(c, s, step))
  {
    hide Inv, Enabled, Apply;
    match step
    case Write(_, _) => WriteKeepsInv(c, s, step);
    case Put(_, _) => PutKeepsInv(c, s, step);
    case Remove(_) => RemoveKeepsInv(c, s, step);
    case BumpEpoch(_) => BumpKeepsInv(c, s, step);
    case _ => QuietStepKeepsInv(c, s, step);
  }

  // ----- Runs -----

  /** `s'` comes after `s` in some interleaving. */
  ghost predicate Leads<K(!new), V(!new)>(c: Config<K, V>, s: State<K, V>, s': State<K, V>) {
    exists steps :: Exec(c, s, steps) == Some(s')
  }

  lemma {:induction false} ExecKeepsInv<K(!new), V>(c: Config<K, V>, s: State<K, V>, steps: seq<Step<K, V>>)
    requires c.cap > 0 && Inv(c, s) && Exec(c, s, steps).Some?
    ensures var s' := Exec(c, s, steps).value;
      && Inv(c, s')
      && s.removed <= s'.removed && s.bumps <= s'.bumps && s.writes <= s'.writes
    decreases |steps|
  {
    if steps != [] {
      StepKeepsInv(c, s, steps[0]);
      ExecKeepsInv(c, Apply(c, s, steps[0]), steps[1..]);
    }
  }

  lemma {:induction false} ReachableInv<K(!new), V(!new)>(c: Config<K, V>, clients: set<nat>, s: State<K, V>)
    requires c.cap > 0 && Leads(c, Init(clients), s)
    ensures Inv(c, s)
  {
    var steps :| Exec(c, Init(clients), steps) == Some(s);
    ExecKeepsInv(c, Init(clients), steps);
  }

  /** The invalidation fence. A call to `clear` or `invalidate` made after
      `since` writes has returned in `s1`; in every state `s2` from then on,
      whatever the interleaving, each entry it covers holds a value that was
      read from the source after all those writes. The capacity holds
      throughout. */
  lemma {:induction false} InvalidationFence<K(!new), V(!new)>(c: Config<K, V>, clients: set<nat>, s1: State<K, V>,
                                          s2: State<K, V>, w: nat)
    requires c.cap > 0 && Leads(c, Init(clients), s1) && Leads(c, s1, s2)
    requires w in s1.pcs && s1.pcs[w].Returned?
    ensures |s2.entries| <= c.cap
    ensures forall k :: k in s2.entries && s1.pcs[w].target.Covers(k) ==>
      var r := s2.entries[k].value;
      Genuine(c, s2.writes, k, r) && s1.pcs[w].since <= r.stamp
  {
    var steps :| Exec(c, s1, steps) == Some(s2);
    ReachableInv(c, clients, s1);
    ExecKeepsInv(c, s1, steps);
    var p := s1.pcs[w];
    assert FenceOk(s1.bumps, s1.removed, p);
    assert s2.bumps[p.ticket] == Bump(p.target, p.since);
    forall k | k in s2.entries && p.target.Covers(k)
      ensures p.since <= s2.entries[k].value.stamp
    {
      assert EntryOk(s2.bumps, s2.removed, k, s2.entries[k].value);
      assert After(s2.bumps[p.ticket], k, s2.entries[k].value);
    }
  }

  /** A cache hit of a `get_or_load` after such a call: its value was read
      after those writes; and if the key has not been written again, it is the
      source's present value. */
  lemma {:induction false} HitsAreFresh<K(!new), V(!new)>(c: Config<K, V>, clients: set<nat>, s1: State<K, V>,
                                          s2: State<K, V>, w: nat, t: nat)
    requires c.cap > 0 && Leads(c, Init(clients), s1) && Leads(c, s1, s2)
    requires w in s1.pcs && s1.pcs[w].Returned?
    requires Enabled(s2, Lookup(t)) && s1.pcs[w].target.Covers(s2.pcs[t].key)
    requires Apply(c, s2, Lookup(t)).pcs[t].Hit?
    ensures var k, since, r := s2.pcs[t].key, s1.pcs[w].since, Apply(c, s2, Lookup(t)).pcs[t].read;
      && since <= r.stamp <= |s2.writes| && r.value == SourceAt(c, s2.writes, k, r.stamp)
      && ((forall i :: since <= i < |s2.writes| ==> s2.writes[i].0 != k) ==> r == Current(c, s2, k).(stamp := r.stamp))
  {
    InvalidationFence(c, clients, s1, s2, w);
    var k, since, r := s2.pcs[t].key, s1.pcs[w].since, Apply(c, s2, Lookup(t)).pcs[t].read;
    assert r == s2.entries[k].value;
    if forall i :: since <= i < |s2.writes| ==> s2.writes[i].0 != k {
      SourceAtQuiet(c, s2.writes, k, r.stamp, |s2.writes|);
    }
  }

  lemma {:induction false} SourceAtQuiet<K(!new), V>(c: Config<K, V>, writes: seq<(K, V)>, k: K, n: nat, m: nat)
    requires n <= m <= |writes| && forall i :: n <= i < m ==> writes[i].0 != k
    ensures SourceAt(c, writes, k, n) == SourceAt(c, writes, k, m)
  {
    if n < m { SourceAtQuiet(c, writes, k, n, m - 1); }
  }

  lemma {:induction false} ExecSnoc<K(!new), V>(c: Config<K, V>, s: State<K, V>, steps: seq<Step<K, V>>,
                                      step: Step<K, V>)
    requires Exec(c, s, steps).Some? && Enabled(Exec(c, s, steps).value, step)
    ensures Exec(c, s, steps + [step]) == Some(Apply(c, Exec(c, s, steps).value, step))
    decreases |steps|
  {
    if steps == [] {
      assert Exec(c, Apply(c, s, step), []) == Some(Apply(c, s, step));
      assert steps + [step] == [step];
    } else {
      assert (steps + [step])[1..] == steps[1..] + [step];
      ExecSnoc(c, Apply(c, s, steps[0]), steps[1..], step);
    }
  }

  lemma {:induction false} Then<K(!new), V(!new)>(c: Config<K, V>, s0: State<K, V>, s: State<K, V>, step: Step<K, V>)
    returns (s': State<K, V>)
    requires Leads(c, s0, s) && Enabled(s, step)
    ensures s' == Apply(c, s, step) && Leads(c, s0, s')
  {
    var steps :| Exec(c, s0, steps) == Some(s);
    ExecSnoc(c, s0, steps, step);
    s' := Apply(c, s, step);
  }

  lemma {:induction false} WitnessMisses(c: Config<int, int>) returns (s: State<int, int>)
    requires c.cap == 8 && c.source(7) == 0
    ensures Leads(c, Init({0, 1}), s)
    ensures s == State(0, [], 0, None, map[], map[0 := Missed(7), 1 := Idle], [], {})
  {
    hide Leads;
    var s0: State<int, int> := Init({0, 1});
    assert s0.pcs == map[0 := Idle, 1 := Idle];
    assert Exec(c, s0, []) == Some(s0);
    s := Then(c, s0, s0, Call(0, 7));
    s := Then(c, s0, s, Lookup(0));
    assert s.pcs == map[0 := Missed(7), 1 := Idle];
  }

  lemma {:induction false} WitnessLoads(c: Config<int, int>) returns (s: State<int, int>)
    requires c.cap == 8 && c.source(7) == 0
    ensures Leads(c, Init({0, 1}), s)
    ensures s == State(0, [], 0, None, map[], map[0 := Sampled(7, 0, Read(0, 0), 0), 1 := Idle], [], {})
  {
    hide Leads;
    var s0: State<int, int> := Init({0, 1});
    s := WitnessMisses(c);
    s := Then(c, s0, s, Snapshot(0));
    s := Then(c, s0, s, Load(0));
    s := Then(c, s0, s, Sample(0));
    assert s.pcs == map[0 := Sampled(7, 0, Read(0, 0), 0), 1 := Idle];
  }

  lemma {:induction false} WitnessChecks(c: Config<int, int>) returns (s: State<int, int>)
    requires c.cap == 8 && c.source(7) == 0
    ensures Leads(c, Init({0, 1}), s)
    ensures s == State(0, [(7, 1)], 0, Some(0), map[], map[0 := Checked(7, 0, Read(0, 0), 0), 1 := Idle], [], {})
  {
    hide Leads;
    var s0: State<int, int> := Init({0, 1});
    s := WitnessLoads(c);
    s := Then(c, s0, s, Acquire(0));
    s := Then(c, s0, s, Check(0));
    s := Then(c, s0, s, Write(7, 1));
    assert s.pcs == map[0 := Checked(7, 0, Read(0, 0), 0), 1 := Idle];
  }

  lemma {:induction false} WitnessBumps(c: Config<int, int>) returns (s: State<int, int>)
    requires c.cap == 8 && c.source(7) == 0
    ensures Leads(c, Init({0, 1}), s)
    ensures s == State(0, [(7, 1)], 1, Some(0), map[],
                       map[0 := Checked(7, 0, Read(0, 0), 0), 1 := Bumped(Only(7), 1, 0)], [Bump(Only(7), 1)], {})
  {
    hide Leads;
    var s0: State<int, int> := Init({0, 1});
    s := WitnessChecks(c);
    s := Then(c, s0, s, Ask(1, Only(7)));
    s := Then(c, s0, s, BumpEpoch(1));
    assert s.pcs == map[0 := Checked(7, 0, Read(0, 0), 0), 1 := Bumped(Only(7), 1, 0)];
  }

  lemma {:induction false} WitnessPuts(c: Config<int, int>) returns (s: State<int, int>)
    requires c.cap == 8 && c.source(7) == 0
    ensures Leads(c, Init({0, 1}), s)
    ensures s == State(0, [(7, 1)], 1, Some(0), map[7 := Entry(Read(0, 0), 0)],
                       map[0 := Leaving(7, Read(0, 0)), 1 := Bumped(Only(7), 1, 0)], [Bump(Only(7), 1)], {})
  {
    hide Leads;
    var s0: State<int, int> := Init({0, 1});
    s := WitnessBumps(c);
    assert IsOrder([], s.entries);
    s := Then(c, s0, s, Put(0, []));
    assert s.entries == map[7 := Entry(Read(0, 0), 0)];
    assert s.pcs == map[0 := Leaving(7, Read(0, 0)), 1 := Bumped(Only(7), 1, 0)];
  }

  lemma {:induction false} WitnessHolds(c: Config<int, int>, s: State<int, int>) returns (s': State<int, int>)
    requires Leads(c, Init({0, 1}), s) && s.lock == Some(0)
    requires s.pcs == map[0 := Leaving(7, Read(0, 0)), 1 := Bumped(Only(7), 1, 0)]
    ensures Leads(c, Init({0, 1}), s')
    ensures s' == s.(lock := Some(1), pcs := map[0 := Answered(7, Read(0, 0)), 1 := Holding(Only(7), 1, 0)])
  {
    hide Leads;
    var s0: State<int, int> := Init({0, 1});
    s' := Then(c, s0, s, Release(0));
    s' := Then(c, s0, s', Acquire(1));
    assert s'.pcs == map[0 := Answered(7, Read(0, 0)), 1 := Holding(Only(7), 1, 0)];
  }

  /** Why the fence speaks of returned calls and of hits. A bump may fall
      between the check and the insertion: `s` then holds a value older than
      a write whose invalidation has already bumped. And the load that put it
      there answers with it (`s'`) after that invalidation has returned; the
      map no longer holds it. */
  lemma {:induction false} StraddlingLoad(c: Config<int, int>) returns (s: State<int, int>, s': State<int, int>)
    requires c.cap == 8 && c.source(7) == 0
    ensures Leads(c, Init({0, 1}), s) && Leads(c, Init({0, 1}), s')
    ensures 1 in s.pcs && s.pcs[1] == Bumped(Only(7), 1, 0) && 7 in s.entries && s.entries[7].value == Read(0, 0)
    ensures {0, 1} <= s'.pcs.Keys && s'.pcs[1] == Returned(Only(7), 1, 0) && s'.entries == map[]
    ensures s'.pcs[0] == Answered(7, Read(0, 0)) && Current(c, s', 7).value == 1
  {
    hide Leads;
    var s0: State<int, int> := Init({0, 1});
    s := WitnessPuts(c);
    s' := WitnessHolds(c, s);
    s' := Then(c, s0, s', Remove(1));
    assert s'.entries == map[];
    s' := Then(c, s0, s', Release(1));
    assert s'.pcs[1] == Returned(Only(7), 1, 0) && s'.pcs[0] == Answered(7, Read(0, 0));
  }
}
