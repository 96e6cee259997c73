/** The deterministic clock: a discrete-event scheduler whose callbacks may
    set and clear timers themselves.

    A callback is a value `C`, and an `Effect` says what running it does: from
    the world, the callback, the time and the next timer id, a new world and
    the clock calls it makes, in order. Times are whole milliseconds. */
module ManualClock {
  import opened Results

  datatype Timer<+C> = Timer(id: nat, at: nat, fn: C)

  datatype Cmd<+C> = Set(ms: int, fn: C) | Clear(id: int)

  type Effect<!W, !C> = (W, C, nat, nat) -> (W, seq<Cmd<C>>)

  /** `timers` is the insertion-ordered map of the pending timers; `fired` and
      `cleared` record the past and nothing looks at them. */
  datatype Sim<+W, C> = Sim(now: nat, nextId: nat, timers: seq<Timer<C>>, world: W, fired: seq<Timer<C>>,
                            cleared: set<nat>)

  function Start<W, C>(world: W): Sim<W, C> {
    Sim(0, 1, [], world, [], {})
  }

  function Max0(ms: int): nat {
    if ms > 0 then ms else 0
  }

  function SetTimer<W, C>(s: Sim<W, C>, ms: int, fn: C): Sim<W, C> {
    s.(timers := s.timers + [Timer(s.nextId, s.now + Max0(ms), fn)], nextId := s.nextId + 1)
  }

  function Without<C(!new)>(ts: seq<Timer<C>>, id: int): (r: seq<Timer<C>>)
    ensures forall t :: t in r <==> t in ts && t.id != id
  {
    if ts == [] then []
    else if ts[0].id == id then Without(ts[1..], id)
    else [ts[0]] + Without(ts[1..], id)
  }

  ghost predicate Pending<C(!new)>(ts: seq<Timer<C>>, id: int) {
    exists t :: t in ts && t.id == id
  }

  ghost function ClearTimer<W, C(!new)>(s: Sim<W, C>, id: int): Sim<W, C> {
    s.(timers := Without(s.timers, id), cleared := if Pending(s.timers, id) then s.cleared + {id} else s.cleared)
  }

  ghost function Obey<W, C(!new)>(s: Sim<W, C>, cmd: Cmd<C>): Sim<W, C> {
    match cmd
    case Set(ms, fn) => SetTimer(s, ms, fn)
    case Clear(id) => ClearTimer(s, id)
  }

  ghost function ObeyAll<W, C(!new)>(s: Sim<W, C>, cmds: seq<Cmd<C>>): Sim<W, C>
    decreases |cmds|
  {
    if cmds == [] then s else ObeyAll(Obey(s, cmds[0]), cmds[1..])
  }

  /** The scan for the timer to fire: strictly earlier ones replace `best`. */
  function Scan<C>(ts: seq<Timer<C>>, target: nat, best: Option<Timer<C>>): Option<Timer<C>> {
    if ts == [] then best
    else Scan(ts[1..], target, Better(target, best, ts[0]))
  }

  function Better<C>(target: nat, best: Option<Timer<C>>, t: Timer<C>): Option<Timer<C>> {
    if t.at <= target && (best.None? || t.at < best.value.at) then Some(t) else best
  }

  function Due<W, C>(s: Sim<W, C>, target: nat): Option<Timer<C>> {
    Scan(s.timers, target, None)
  }

  ghost predicate Settled<W, C(!new)>(s: Sim<W, C>, target: nat) {
    forall t :: t in s.timers ==> t.at > target
  }

  /** A delay that is not positive is none; a timer is due that long from now. */
  lemma {:induction false} SetIsDueAfter<W, C>(s: Sim<W, C>, ms: int, fn: C)
    ensures ms <= 0 ==> SetTimer(s, ms, fn) == SetTimer(s, 0, fn)
    ensures ms >= 0 ==> SetTimer(s, ms, fn).timers == s.timers + [Timer(s.nextId, s.now + ms, fn)]
    ensures SetTimer(s, ms, fn) == s.(timers := SetTimer(s, ms, fn).timers, nextId := s.nextId + 1)
  {
  }

  /** One turn of the loop of `tick`. */
  ghost function Fire<W, C(!new)>(p: Effect<W, C>, s: Sim<W, C>, target: nat): Sim<W, C>
    requires Due(s, target).Some?
  {
    var d := Due(s, target).value;
    var r := p(s.world, d.fn, d.at, s.nextId);
    ObeyAll(s.(timers := Without(s.timers, d.id), now := d.at, fired := s.fired + [d], world := r.0), r.1)
  }

  /** `n` turns, if there is something due each time. */
  ghost function FireN<W, C(!new)>(p: Effect<W, C>, s: Sim<W, C>, target: nat, n: nat): Option<Sim<W, C>>
    decreases n
  {
    if n == 0 then Some(s)
    else if Due(s, target).None? then None
    else FireN(p, Fire(p, s, target), target, n - 1)
  }

  /** `tick(ms)` takes `s` to `s'` by firing `n` timers. */
  ghost predicate Ticks<W, C(!new)>(p: Effect<W, C>, s: Sim<W, C>, ms: int, n: nat, s': Sim<W, C>) {
    var r := FireN(p, s, s.now + Max0(ms), n);
    r.Some? && Settled(r.value, s.now + Max0(ms)) && s' == r.value.(now := s.now + Max0(ms))
  }

  /** `n` firings up to `target` lead from `s` to `s'`. */
  ghost predicate Fires<W, C(!new)>(p: Effect<W, C>, s: Sim<W, C>, target: nat, n: nat, s': Sim<W, C>) {
    FireN(p, s, target, n) == Some(s')
  }

  // ----- Order of firing -----

  predicate Before<C>(a: Timer<C>, b: Timer<C>) {
    a.at < b.at || (a.at == b.at && a.id < b.id)
  }

  ghost predicate Ascending<C(!new)>(ts: seq<Timer<C>>) {
    forall i, j :: 0 <= i < j < |ts| ==> ts[i].id < ts[j].id
  }

  /** The scan returns the least due timer by deadline and creation. */
  lemma {:induction false} ScanLeast<C(!new)>(ts: seq<Timer<C>>, target: nat, best: Option<Timer<C>>)
    requires Ascending(ts)
    requires best.Some? ==> best.value.at <= target && forall t :: t in ts ==> best.value.id < t.id
    ensures var r := Scan(ts, target, best);
      && (r.None? <==> best.None? && forall t :: t in ts ==> t.at > target)
      && (r.Some? ==> (r == best || r.value in ts) && r.value.at <= target)
      && (r.Some? ==> forall t :: t in ts && t.at <= target && t != r.value ==> Before(r.value, t))
      && (r.Some? && best.Some? && best != r ==> r.value.at < best.value.at)
  {
    if ts != [] {
      var b' := Better(target, best, ts[0]);
      assert forall t :: t in ts[1..] ==> ts[0].id < t.id;
      assert ts == [ts[0]] + ts[1..];
      ScanLeast(ts[1..], target, b');
    }
  }

  lemma {:induction false} DueIsLeast<W, C(!new)>(s: Sim<W, C>, target: nat)
    requires Ascending(s.timers)
    ensures Due(s, target).None? <==> Settled(s, target)
    ensures Due(s, target).Some? ==>
      var d := Due(s, target).value;
      d in s.timers && d.at <= target && forall t :: t in s.timers && t != d ==> Before(d, t)
  {
    ScanLeast(s.timers, target, None);
  }

  /** Pending timers are in creation order and none is overdue. */
  ghost predicate PendingOk<C(!new)>(timers: seq<Timer<C>>, now: nat, nextId: nat) {
    nextId >= 1 && Ascending(timers) && forall t :: t in timers ==> 1 <= t.id < nextId && now <= t.at
  }

  /** Firings happened in strict (deadline, id) order, each id once. */
  ghost predicate FiredOk<C(!new)>(fired: seq<Timer<C>>, now: nat, nextId: nat) {
    && (forall f :: f in fired ==> 1 <= f.id < nextId && f.at <= now)
    && (forall i, j :: 0 <= i < j < |fired| ==> Before(fired[i], fired[j]) && fired[i].id != fired[j].id)
  }

  /** What is pending comes after everything fired; no id is in two places. */
  ghost predicate Apart<C(!new)>(timers: seq<Timer<C>>, fired: seq<Timer<C>>, cleared: set<nat>) {
    && (forall f, t :: f in fired && t in timers ==> Before(f, t) && f.id != t.id)
    && (forall f :: f in fired ==> f.id !in cleared)
    && (forall t :: t in timers ==> t.id !in cleared)
  }

  /** Each id issued so far is pending, fired or cleared. */
  ghost predicate Accounted<C(!new)>(timers: seq<Timer<C>>, fired: seq<Timer<C>>, cleared: set<nat>, nextId: nat) {
    && (forall id: nat :: 1 <= id < nextId ==> Pending(timers, id) || Pending(fired, id) || id in cleared)
    && (forall id :: id in cleared ==> id < nextId)
  }

  ghost predicate Valid<W, C(!new)>(s: Sim<W, C>) {
    && PendingOk(s.timers, s.now, s.nextId)
    && FiredOk(s.fired, s.now, s.nextId)
    && Apart(s.timers, s.fired, s.cleared)
    && Accounted(s.timers, s.fired, s.cleared, s.nextId)
  }

  lemma {:induction false} WithoutAscending<C(!new)>(ts: seq<Timer<C>>, id: int)
    requires Ascending(ts)
    ensures Ascending(Without(ts, id))
  {
    if ts != [] {
      WithoutAscending(ts[1..], id);
      assert forall t :: t in ts[1..] ==> ts[0].id < t.id;
    }
  }

  lemma {:induction false} SetKeepsValid<W, C(!new)>(s: Sim<W, C>, ms: int, fn: C)
    requires Valid(s)
    ensures Valid(SetTimer(s, ms, fn))
  {
    SetAccounted(s, ms, fn);
    SetApart(s, ms, fn);
  }

  lemma {:induction false} SetAccounted<W, C(!new)>(s: Sim<W, C>, ms: int, fn: C)
    requires Accounted(s.timers, s.fired, s.cleared, s.nextId)
    ensures var s' := SetTimer(s, ms, fn); Accounted(s'.timers, s'.fired, s'.cleared, s'.nextId)
  {
    var s' := SetTimer(s, ms, fn);
    assert s'.timers[|s.timers|] in s'.timers;
    assert Pending(s'.timers, s.nextId);
  }

  lemma {:induction false} SetApart<W, C(!new)>(s: Sim<W, C>, ms: int, fn: C)
    requires PendingOk(s.timers, s.now, s.nextId) && FiredOk(s.fired, s.now, s.nextId)
             && Apart(s.timers, s.fired, s.cleared)
    requires forall id :: id in s.cleared ==> id < s.nextId
    ensures var s' := SetTimer(s, ms, fn);
      PendingOk(s'.timers, s'.now, s'.nextId) && Apart(s'.timers, s'.fired, s'.cleared)
  {
    var s' := SetTimer(s, ms, fn);
    assert forall t :: t in s'.timers ==> t in s.timers || t == s'.timers[|s.timers|];
  }

  lemma {:induction false} ClearKeepsValid<W, C(!new)>(s: Sim<W, C>, id: int)
    requires Valid(s)
    ensures Valid(ClearTimer(s, id))
  {
    WithoutAscending(s.timers, id);
    ClearApart(s, id);
  }

  lemma {:induction false} ClearApart<W, C(!new)>(s: Sim<W, C>, id: int)
    requires Apart(s.timers, s.fired, s.cleared)
    ensures var s' := ClearTimer(s, id); Apart(s'.timers, s'.fired, s'.cleared)
  {
    assert Pending(s.timers, id) ==> forall f :: f in s.fired ==> f.id != id;
  }

  lemma {:induction false} ObeyAllKeepsValid<W, C(!new)>(s: Sim<W, C>, cmds: seq<Cmd<C>>)
    requires Valid(s)
    ensures Valid(ObeyAll(s, cmds))
    decreases |cmds|
  {
    if cmds != [] {
      match cmds[0]
      case Set(ms, fn) =>
        SetKeepsValid(s, ms, fn);
        ObeyAllKeepsValid(SetTimer(s, ms, fn), cmds[1..]);
      case Clear(id) =>
        ClearKeepsValid(s, id);
        ObeyAllKeepsValid(ClearTimer(s, id), cmds[1..]);
    }
  }

  /** The timer to fire leaves the map for the record of firings. */
  ghost function TakeOut<W, C(!new)>(s: Sim<W, C>, d: Timer<C>): Sim<W, C> {
    s.(timers := Without(s.timers, d.id), now := d.at, fired := s.fired + [d])
  }

  lemma {:induction false} TakeOutApart<W, C(!new)>(s: Sim<W, C>, d: Timer<C>)
    requires PendingOk(s.timers, s.now, s.nextId) && Apart(s.timers, s.fired, s.cleared)
    requires d in s.timers && forall t :: t in s.timers && t != d ==> Before(d, t)
    ensures var s' := TakeOut(s, d); Apart(s'.timers, s'.fired, s'.cleared)
  {
    var s' := TakeOut(s, d);
    assert forall f :: f in s'.fired ==> f in s.fired || f == d;
  }

  lemma {:induction false} TakeOutFired<W, C(!new)>(s: Sim<W, C>, d: Timer<C>)
    requires PendingOk(s.timers, s.now, s.nextId) && FiredOk(s.fired, s.now, s.nextId)
             && Apart(s.timers, s.fired, s.cleared)
    requires d in s.timers
    ensures var s' := TakeOut(s, d); FiredOk(s'.fired, s'.now, s'.nextId)
  {
    assert forall f :: f in TakeOut(s, d).fired ==> f in s.fired || f == d;
  }

  lemma {:induction false} TakeOutAccounted<W, C(!new)>(s: Sim<W, C>, d: Timer<C>)
    requires Accounted(s.timers, s.fired, s.cleared, s.nextId) && d in s.timers
    ensures var s' := TakeOut(s, d); Accounted(s'.timers, s'.fired, s'.cleared, s'.nextId)
  {
    var s' := TakeOut(s, d);
    assert d in s'.fired;
    assert Pending(s'.fired, d.id);
  }

  lemma {:induction false} TakeOutKeepsValid<W, C(!new)>(s: Sim<W, C>, d: Timer<C>)
    requires Valid(s) && d in s.timers && forall t :: t in s.timers && t != d ==> Before(d, t)
    ensures Valid(TakeOut(s, d))
  {
    WithoutAscending(s.timers, d.id);
    TakeOutFired(s, d);
    TakeOutApart(s, d);
    TakeOutAccounted(s, d);
  }

  lemma {:induction false} FireKeepsValid<W, C(!new)>(p: Effect<W, C>, s: Sim<W, C>, target: nat)
    requires Valid(s) && Due(s, target).Some?
    ensures Valid(Fire(p, s, target))
  {
    DueIsLeast(s, target);
    var d := Due(s, target).value;
    var r := p(s.world, d.fn, d.at, s.nextId);
    TakeOutKeepsValid(s, d);
    ObeyAllKeepsValid(TakeOut(s, d).(world := r.0), r.1);
  }

  lemma {:induction false} ObeyAllKeeps<W, C(!new)>(s: Sim<W, C>, cmds: seq<Cmd<C>>)
    ensures var s' := ObeyAll(s, cmds);
      s'.now == s.now && s'.fired == s.fired && s'.world == s.world && s.cleared <= s'.cleared && s.nextId <= s'.nextId
    ensures var s' := ObeyAll(s, cmds);
      forall t :: t in s.timers ==> t in s'.timers || t.id in s'.cleared
    decreases |cmds|
  {
    if cmds != [] {
      var s1 := Obey(s, cmds[0]);
      ObeyAllKeeps(s1, cmds[1..]);
      assert forall t :: t in s.timers ==> t in s1.timers || t.id in s1.cleared;
    }
  }

  lemma {:induction false} FireKeepsNow<W, C(!new)>(p: Effect<W, C>, s: Sim<W, C>, target: nat)
    requires Valid(s) && Due(s, target).Some?
    ensures var s' := Fire(p, s, target);
      && s.now <= s'.now == Due(s, target).value.at <= target
      && s'.fired == s.fired + [Due(s, target).value]
      && s.cleared <= s'.cleared
      && forall t :: t in s.timers ==> t in s'.timers || t in s'.fired || t.id in s'.cleared
  {
    DueIsLeast(s, target);
    var d := Due(s, target).value;
    var r := p(s.world, d.fn, d.at, s.nextId);
    ObeyAllKeeps(TakeOut(s, d).(world := r.0), r.1);
    forall t | t in s.timers
      ensures var s' := Fire(p, s, target); t in s'.timers || t in s'.fired || t.id in s'.cleared
    {
      if t != d { assert t in TakeOut(s, d).timers; }
    }
  }

  /** Where a timer pending in `s` is in a later `s'`. */
  ghost predicate AccountsFor<W, C(!new)>(s: Sim<W, C>, s': Sim<W, C>) {
    && s.fired <= s'.fired && s.cleared <= s'.cleared
    && forall t :: t in s.timers ==> t in s'.timers || t in s'.fired || t.id in s'.cleared
  }

  lemma {:induction false} AccountsForTrans<W, C(!new)>(a: Sim<W, C>, b: Sim<W, C>, c: Sim<W, C>)
    requires AccountsFor(a, b) && AccountsFor(b, c)
    ensures AccountsFor(a, c)
  {
    assert forall f :: f in b.fired ==> f in c.fired;
  }

  /** What every firing keeps, any number of firings keeps. */
  lemma {:induction false} FiresKeep<W(!new), C(!new)>(p: Effect<W, C>, s: Sim<W, C>, target: nat, n: nat,
                                       s': Sim<W, C>, kept: Sim<W, C> -> bool)
    requires Fires(p, s, target, n, s') && kept(s)
    requires forall x :: kept(x) && Due(x, target).Some? ==> kept(Fire(p, x, target))
    ensures kept(s')
    decreases n
  {
    if n > 0 { FiresKeep(p, Fire(p, s, target), target, n - 1, s', kept); }
  }

  /** `x` was reached from `s` by firing what is due at `target`. */
  ghost predicate Reached<W, C(!new)>(s: Sim<W, C>, target: nat, x: Sim<W, C>) {
    Valid(x) && AccountsFor(s, x) && s.now <= x.now && (s.now <= target ==> x.now <= target)
  }

  lemma {:induction false} FireReaches<W, C(!new)>(p: Effect<W, C>, s: Sim<W, C>, target: nat, x: Sim<W, C>)
    requires Reached(s, target, x) && Due(x, target).Some?
    ensures Reached(s, target, Fire(p, x, target))
  {
    FireFacts(p, x, target);
    AccountsForTrans(s, x, Fire(p, x, target));
  }

  lemma {:induction false} FireNFacts<W(!new), C(!new)>(p: Effect<W, C>, s: Sim<W, C>, target: nat, n: nat,
                                        s': Sim<W, C>)
    requires Valid(s) && Fires(p, s, target, n, s')
    ensures Reached(s, target, s')
  {
    forall x | Reached(s, target, x) && Due(x, target).Some?
      ensures Reached(s, target, Fire(p, x, target))
    {
      FireReaches(p, s, target, x);
    }
    FiresKeep(p, s, target, n, s', x => Reached(s, target, x));
  }

  lemma {:induction false} FireFacts<W, C(!new)>(p: Effect<W, C>, s: Sim<W, C>, target: nat)
    requires Valid(s) && Due(s, target).Some?
    ensures var s' := Fire(p, s, target); Valid(s') && AccountsFor(s, s') && s.now <= s'.now <= target
  {
    FireKeepsValid(p, s, target);
    FireKeepsNow(p, s, target);
  }

  /** A tick keeps all of that, ends at its target with nothing due, and every
      timer that was due has fired, exactly once, unless a callback cleared
      it; what has not fired is untouched. */
  lemma {:induction false} TickFiresWhatIsDue<W(!new), C(!new)>(p: Effect<W, C>, s: Sim<W, C>, ms: int, n: nat,
                                          s': Sim<W, C>)
    requires Valid(s) && Ticks(p, s, ms, n, s')
    ensures Valid(s') && s'.now == s.now + Max0(ms) && Settled(s', s'.now) && s.fired <= s'.fired
    ensures forall t :: t in s.timers && t.at <= s'.now ==> t in s'.fired || t.id in s'.cleared
    ensures forall t :: t in s.timers && t.at > s'.now ==> t in s'.timers || t.id in s'.cleared
  {
    hide Valid, Ticks, FireN, Scan;
    var y := LoopEnd(p, s, ms, n, s');
    FireNFacts(p, s, s.now + Max0(ms), n, y);
    StandStill(y, s'.now);
    WhereNow(s, s');
  }

  /** Time may pass up to the next deadline. */
  lemma {:induction false} StandStill<W, C(!new)>(y: Sim<W, C>, now: nat)
    requires Valid(y) && y.now <= now && Settled(y, now)
    ensures Valid(y.(now := now))
  {
  }

  lemma {:induction false} WhereNow<W, C(!new)>(s: Sim<W, C>, s': Sim<W, C>)
    requires AccountsFor(s, s') && Valid(s') && Settled(s', s'.now)
    ensures forall t :: t in s.timers && t.at <= s'.now ==> t in s'.fired || t.id in s'.cleared
    ensures forall t :: t in s.timers && t.at > s'.now ==> t in s'.timers || t.id in s'.cleared
  {
  }

  /** Any history of calls from outside. */
  datatype Call<+C> = SetTimeout(fn: C, ms: int) | ClearTimeout(id: int) | Tick(ms: int)

  ghost predicate Does<W, C(!new)>(p: Effect<W, C>, s: Sim<W, C>, call: Call<C>, s': Sim<W, C>) {
    match call
    case SetTimeout(fn, ms) => s' == SetTimer(s, ms, fn)
    case ClearTimeout(id) => s' == ClearTimer(s, id)
    case Tick(ms) => TicksTo(p, s, ms, s')
  }

  /** `trace` is the states between the calls. */
  ghost predicate History<W, C(!new)>(p: Effect<W, C>, calls: seq<Call<C>>, trace: seq<Sim<W, C>>) {
    && |trace| == |calls| + 1
    && forall i :: 0 <= i < |calls| ==> Does(p, trace[i], calls[i], trace[i + 1])
  }

  /** Over every history: time never goes back, and firings happen in strict
      (deadline, creation id) order, each created timer being at any moment
      pending, fired or cleared, and only one of these. */
  lemma {:induction false} HistoryKeepsOrder<W(!new), C(!new)>(p: Effect<W, C>, world: W, calls: seq<Call<C>>,
                                          trace: seq<Sim<W, C>>, i: nat)
    requires History(p, calls, trace) && trace[0] == Start(world) && i <= |calls|
    ensures Valid(trace[i]) && trace[0].now <= trace[i].now
    ensures i > 0 ==> trace[i - 1].now <= trace[i].now
  {
    if i > 0 {
      HistoryKeepsOrder(p, world, calls, trace, i - 1);
      var s := trace[i - 1];
      assert Does(p, s, calls[i - 1], trace[i]);
      match calls[i - 1]
      case SetTimeout(fn, ms) => SetKeepsValid(s, ms, fn);
      case ClearTimeout(id) => ClearKeepsValid(s, id);
      case Tick(ms) =>
        var n: nat :| Ticks(p, s, ms, n, trace[i]);
        TickFiresWhatIsDue(p, s, ms, n, trace[i]);
    }
  }

  // ----- Splitting a tick in two -----

  /** An earlier target selects the same timer, if any. */
  lemma {:induction false} ScanSame<C(!new)>(ts: seq<Timer<C>>, t1: nat, t2: nat, b1: Option<Timer<C>>,
                                      b2: Option<Timer<C>>)
    requires t1 <= t2 && (b1 == b2 || (b1.None? && b2.value.at > t1))
    requires b1.Some? ==> b1.value.at <= t1
    ensures Scan(ts, t1, b1).Some? ==> Scan(ts, t2, b2) == Scan(ts, t1, b1)
  {
    if ts != [] { ScanSame(ts[1..], t1, t2, Better(t1, b1, ts[0]), Better(t2, b2, ts[0])); }
  }

  lemma {:induction false} ScanNone<C(!new)>(ts: seq<Timer<C>>, target: nat, best: Option<Timer<C>>)
    ensures Scan(ts, target, best).None? <==> best.None? && forall t :: t in ts ==> t.at > target
  {
    if ts != [] {
      assert ts == [ts[0]] + ts[1..];
      ScanNone(ts[1..], target, Better(target, best, ts[0]));
    }
  }

  lemma {:induction false} NoneDue<W, C(!new)>(s: Sim<W, C>, target: nat)
    ensures Due(s, target).None? <==> Settled(s, target)
  {
    ScanNone(s.timers, target, None);
  }

  lemma {:induction false} FiresSame<W, C(!new)>(p: Effect<W, C>, s: Sim<W, C>, t1: nat, t2: nat, n: nat, s': Sim<W, C>)
    requires t1 <= t2 && Fires(p, s, t1, n, s')
    ensures Fires(p, s, t2, n, s')
    decreases n
  {
    if n > 0 {
      ScanSame(s.timers, t1, t2, None, None);
      FiresSame(p, Fire(p, s, t1), t1, t2, n - 1, s');
    }
  }

  lemma {:induction false} FireNAdd<W, C(!new)>(p: Effect<W, C>, s: Sim<W, C>, target: nat, n: nat, m: nat,
                                         x: Sim<W, C>)
    requires Fires(p, s, target, n, x)
    ensures FireN(p, s, target, n + m) == FireN(p, x, target, m)
    decreases n
  {
    hide Due, Fire;
    if n > 0 { FireNAdd(p, Fire(p, s, target), target, n - 1, m, x); }
  }

  /** After no firing the clock still reads `now`. */
  function AtClock<W, C(!new)>(s: Sim<W, C>, n: nat, now: nat): Sim<W, C> {
    if n == 0 then s.(now := now) else s
  }

  /** The clock reading before a firing does not matter. */
  lemma {:induction false} FiresIgnoresNow<W, C(!new)>(p: Effect<W, C>, s: Sim<W, C>, now: nat, target: nat, n: nat,
                                          s': Sim<W, C>)
    requires Fires(p, s, target, n, s')
    ensures Fires(p, s.(now := now), target, n, AtClock(s', n, now))
  {
    if n > 0 {
      var d := Due(s, target).value;
      var r := p(s.world, d.fn, d.at, s.nextId);
      assert s.(timers := Without(s.timers, d.id), now := d.at, fired := s.fired + [d], world := r.0)
          == s.(now := now).(timers := Without(s.timers, d.id), now := d.at, fired := s.fired + [d], world := r.0);
      assert Fire(p, s, target) == Fire(p, s.(now := now), target);
    }
  }

  lemma {:induction false} FiresCons<W, C(!new)>(p: Effect<W, C>, s: Sim<W, C>, target: nat, n: nat, s': Sim<W, C>)
    requires Due(s, target).Some?
    ensures Fires(p, Fire(p, s, target), target, n, s') <==> Fires(p, s, target, n + 1, s')
  {
  }

  /** The state of a tick when its loop ends, before the last assignment. */
  lemma {:induction false} LoopEnd<W, C(!new)>(p: Effect<W, C>, s: Sim<W, C>, ms: int, n: nat, s': Sim<W, C>)
    returns (y: Sim<W, C>)
    requires Ticks(p, s, ms, n, s')
    ensures Fires(p, s, s.now + Max0(ms), n, y) && Settled(y, s.now + Max0(ms)) && s' == y.(now := s.now + Max0(ms))
  {
    y := FireN(p, s, s.now + Max0(ms), n).value;
  }

  lemma {:induction false} FiresJoin<W, C(!new)>(p: Effect<W, C>, s: Sim<W, C>, x: Sim<W, C>, t1: nat, t2: nat, n: nat,
                                          m: nat, y: Sim<W, C>, z: Sim<W, C>)
    requires t1 <= t2 && Fires(p, s, t1, n, y) && x == y.(now := t1) && Fires(p, x, t2, m, z)
    ensures Fires(p, s, t2, n + m, AtClock(z, m, y.now))
  {
    FiresSame(p, s, t1, t2, n, y);
    FireNAdd(p, s, t2, n, m, y);
    FiresIgnoresNow(p, x, y.now, t2, m, z);
    assert x.(now := y.now) == y;
  }

  lemma {:induction false} TwoTicksMakeOne<W, C(!new)>(p: Effect<W, C>, s: Sim<W, C>, a: nat, b: nat, n: nat, m: nat,
                                          x: Sim<W, C>, s': Sim<W, C>)
    requires Ticks(p, s, a, n, x) && Ticks(p, x, b, m, s')
    ensures Ticks(p, s, a + b, n + m, s')
  {
    hide Ticks, Fires, Settled;
    var t1, t2 := s.now + a, s.now + a + b;
    var y := LoopEndAt(p, s, a, t1, n, x);
    var z := LoopEndAt(p, x, b, t2, m, s');
    FiresJoin(p, s, x, t1, t2, n, m, y, z);
    LoopIsTick(p, s, a + b, t2, n + m, AtClock(z, m, y.now), s');
  }

  lemma {:induction false} LoopEndAt<W, C(!new)>(p: Effect<W, C>, s: Sim<W, C>, ms: nat, target: nat, n: nat,
                                          s': Sim<W, C>) returns (y: Sim<W, C>)
    requires Ticks(p, s, ms, n, s') && target == s.now + ms
    ensures Fires(p, s, target, n, y) && Settled(y, target) && s' == y.(now := target)
  {
    y := LoopEnd(p, s, ms, n, s');
  }

  lemma {:induction false} LoopIsTick<W, C(!new)>(p: Effect<W, C>, s: Sim<W, C>, ms: nat, target: nat, n: nat,
                                          y: Sim<W, C>, s': Sim<W, C>)
    requires target == s.now + ms && Fires(p, s, target, n, y) && Settled(y, target) && s' == y.(now := target)
    ensures Ticks(p, s, ms, n, s')
  {
    TickOfLoop(p, s, ms, n, y);
  }

  /** A tick, from the state its loop ends in. */
  lemma {:induction false} TickOfLoop<W, C(!new)>(p: Effect<W, C>, s: Sim<W, C>, ms: nat, n: nat, y: Sim<W, C>)
    requires Fires(p, s, s.now + ms, n, y) && Settled(y, s.now + ms)
    ensures Ticks(p, s, ms, n, y.(now := s.now + ms))
  {
  }

  lemma {:induction false} SameFiring<W, C(!new)>(p: Effect<W, C>, s: Sim<W, C>, t1: nat, t2: nat)
    requires t1 <= t2 && Due(s, t1).Some?
    ensures Due(s, t2) == Due(s, t1) && Fire(p, s, t2) == Fire(p, s, t1)
  {
    ScanSame(s.timers, t1, t2, None, None);
  }

  /** A run that ends with nothing due has fired what was due. */
  lemma {:induction false} RunFires<W, C(!new)>(p: Effect<W, C>, s: Sim<W, C>, target: nat, k: nat, z: Sim<W, C>)
    requires Fires(p, s, target, k, z) && Due(z, target).None? && Due(s, target).Some?
    ensures k > 0 && Fires(p, Fire(p, s, target), target, k - 1, z)
  {
  }

  lemma {:induction false} RunStarts<W, C(!new)>(p: Effect<W, C>, s: Sim<W, C>, t1: nat, t2: nat, n: nat, y: Sim<W, C>)
    requires t1 <= t2 && Due(s, t1).Some? && Due(s, t2).Some? && Fires(p, Fire(p, s, t2), t1, n, y)
    ensures Fires(p, s, t1, n + 1, y)
  {
    SameFiring(p, s, t1, t2);
  }

  /** A run up to `t2` passes through the run up to `t1`. */
  lemma {:induction false} FirstHalf<W, C(!new)>(p: Effect<W, C>, s: Sim<W, C>, t1: nat, t2: nat, k: nat, z: Sim<W, C>)
    returns (n: nat, y: Sim<W, C>)
    requires t1 <= t2 && Fires(p, s, t2, k, z) && Due(z, t2).None?
    ensures n <= k && Fires(p, s, t1, n, y) && Due(y, t1).None? && Fires(p, y, t2, k - n, z)
    decreases k
  {
    hide Due, Fire;
    if Due(s, t1).None? {
      n, y := 0, s;
    } else {
      SameFiring(p, s, t1, t2);
      RunFires(p, s, t2, k, z);
      n, y := FirstHalf(p, Fire(p, s, t2), t1, t2, k - 1, z);
      RunStarts(p, s, t1, t2, n, y);
      n := n + 1;
    }
  }

  lemma {:induction false} OneTickMakesTwo<W, C(!new)>(p: Effect<W, C>, s: Sim<W, C>, a: nat, b: nat, k: nat,
                                          s': Sim<W, C>)
    returns (n: nat, m: nat, x: Sim<W, C>)
    requires Ticks(p, s, a + b, k, s')
    ensures n + m == k && Ticks(p, s, a, n, x) && Ticks(p, x, b, m, s')
  {
    var t1, t2 := s.now + a, s.now + a + b;
    var y: Sim<W, C>, z: Sim<W, C>;
    n, m, y, z := HalfWay(p, s, a + b, t1, t2, k, s');
    x := y.(now := t1);
    LoopIsTick(p, s, a, t1, n, y, x);
    SecondTick(p, y, t1, t2, b, m, z, x, s');
  }

  /** Where the run stands when the first target is reached. */
  lemma {:induction false} HalfWay<W, C(!new)>(p: Effect<W, C>, s: Sim<W, C>, ms: nat, t1: nat, t2: nat, k: nat,
                                        s': Sim<W, C>)
    returns (n: nat, m: nat, y: Sim<W, C>, z: Sim<W, C>)
    requires t1 <= t2 == s.now + ms && Ticks(p, s, ms, k, s')
    ensures n + m == k && Fires(p, s, t1, n, y) && Settled(y, t1)
    ensures Fires(p, y, t2, m, z) && Settled(z, t2) && s' == z.(now := t2)
  {
    z := LoopEndAt(p, s, ms, t2, k, s');
    NoneDue(z, t2);
    n, y := FirstHalf(p, s, t1, t2, k, z);
    NoneDue(y, t1);
    m := k - n;
  }

  lemma {:induction false} SecondTick<W, C(!new)>(p: Effect<W, C>, y: Sim<W, C>, t1: nat, t2: nat, b: nat, m: nat,
                                          z: Sim<W, C>, x: Sim<W, C>, s': Sim<W, C>)
    requires t2 == t1 + b && Fires(p, y, t2, m, z) && Settled(z, t2) && x == y.(now := t1) && s' == z.(now := t2)
    ensures Ticks(p, x, b, m, s')
  {
    SecondHalf(p, y, t1, b, m, z);
  }

  lemma {:induction false} SecondHalf<W, C(!new)>(p: Effect<W, C>, y: Sim<W, C>, t1: nat, b: nat, m: nat, z: Sim<W, C>)
    requires Fires(p, y, t1 + b, m, z) && Settled(z, t1 + b)
    ensures Ticks(p, y.(now := t1), b, m, z.(now := t1 + b))
  {
    FiresIgnoresNow(p, y, t1, t1 + b, m, z);
  }

  /** `tick(ms)` can take `s` to `s'`. */
  ghost predicate TicksTo<W, C(!new)>(p: Effect<W, C>, s: Sim<W, C>, ms: int, s': Sim<W, C>) {
    exists n: nat :: Ticks(p, s, ms, n, s')
  }

  /** Ticking by `a` and then by `b` is ticking by `a + b`: the same firings,
      the same world and timers, and one ends exactly when the other does. */
  lemma {:induction false} TickSplits<W, C(!new)>(p: Effect<W, C>, s: Sim<W, C>, a: nat, b: nat, s': Sim<W, C>)
    ensures TicksTo(p, s, a + b, s') <==> exists x :: TicksTo(p, s, a, x) && TicksTo(p, x, b, s')
  {
    if TicksTo(p, s, a + b, s') {
      var k: nat :| Ticks(p, s, a + b, k, s');
      var n, m, x := OneTickMakesTwo(p, s, a, b, k, s');
      assert TicksTo(p, s, a, x) && TicksTo(p, x, b, s');
    }
    if x :| TicksTo(p, s, a, x) && TicksTo(p, x, b, s') {
      var n: nat :| Ticks(p, s, a, n, x);
      var m: nat :| Ticks(p, x, b, m, s');
      TwoTicksMakeOne(p, s, a, b, n, m, x, s');
    }
  }

  lemma {:induction false} NoFurther<W, C(!new)>(p: Effect<W, C>, s: Sim<W, C>, target: nat, n: nat, m: nat,
                                          x: Sim<W, C>)
    requires n < m && Fires(p, s, target, n, x) && Settled(x, target)
    ensures FireN(p, s, target, m).None?
  {
    NoneDue(x, target);
    FireNAdd(p, s, target, n, m - n, x);
  }

  /** A tick has one outcome. */
  lemma {:induction false} TickIsDeterministic<W, C(!new)>(p: Effect<W, C>, s: Sim<W, C>, ms: int, s1: Sim<W, C>,
                                          s2: Sim<W, C>)
    requires TicksTo(p, s, ms, s1) && TicksTo(p, s, ms, s2)
    ensures s1 == s2
  {
    var n: nat :| Ticks(p, s, ms, n, s1);
    var m: nat :| Ticks(p, s, ms, m, s2);
    var target := s.now + Max0(ms);
    if n < m {
      NoFurther(p, s, target, n, m, FireN(p, s, target, n).value);
    } else if m < n {
      NoFurther(p, s, target, m, n, FireN(p, s, target, m).value);
    }
  }

  // ----- Termination -----

  /** Callbacks only set timers with a positive delay. */
  ghost predicate Paced<W(!new), C(!new)>(p: Effect<W, C>) {
    forall w, c, now, id :: PacedCmds(p(w, c, now, id).1)
  }

  ghost predicate PacedCmds<C(!new)>(cmds: seq<Cmd<C>>) {
    forall cmd :: cmd in cmds && cmd.Set? ==> cmd.ms > 0
  }

  ghost function CountAt<C(!new)>(ts: seq<Timer<C>>, at: nat): nat {
    if ts == [] then 0 else (if ts[0].at == at then 1 else 0) + CountAt(ts[1..], at)
  }

  lemma {:induction false} CountAtAppend<C(!new)>(ts: seq<Timer<C>>, t: Timer<C>, at: nat)
    ensures CountAt(ts + [t], at) == CountAt(ts, at) + if t.at == at then 1 else 0
  {
    if ts == [] {
      assert ts + [t] == [t] && [t][1..] == [];
    } else {
      assert (ts + [t])[1..] == ts[1..] + [t];
      CountAtAppend(ts[1..], t, at);
    }
  }

  lemma {:induction false} CountAtWithout<C(!new)>(ts: seq<Timer<C>>, id: int, at: nat)
    ensures CountAt(Without(ts, id), at) <= CountAt(ts, at)
    ensures (exists t :: t in ts && t.id == id && t.at == at) ==> CountAt(Without(ts, id), at) < CountAt(ts, at)
  {
    if ts != [] {
      CountAtWithout(ts[1..], id, at);
      assert ts == [ts[0]] + ts[1..];
      assert ts[0].id != id ==> Without(ts, id)[1..] == Without(ts[1..], id);
    }
  }

  lemma {:induction false} ObeyAllCount<W, C(!new)>(s: Sim<W, C>, cmds: seq<Cmd<C>>)
    requires PacedCmds(cmds)
    ensures CountAt(ObeyAll(s, cmds).timers, s.now) <= CountAt(s.timers, s.now)
    decreases |cmds|
  {
    if cmds != [] {
      ObeyCount(s, cmds[0]);
      ObeyAllCount(Obey(s, cmds[0]), cmds[1..]);
    }
  }

  lemma {:induction false} ObeyCount<W, C(!new)>(s: Sim<W, C>, cmd: Cmd<C>)
    requires cmd.Set? ==> cmd.ms > 0
    ensures CountAt(Obey(s, cmd).timers, s.now) <= CountAt(s.timers, s.now) && Obey(s, cmd).now == s.now
  {
    match cmd {
      case Set(ms, fn) => CountAtAppend(s.timers, Timer(s.nextId, s.now + Max0(ms), fn), s.now);
      case Clear(id) => CountAtWithout(s.timers, id, s.now);
    }
  }

  /** What goes down with every firing: first how far the next deadline is
      from the target, then how many timers share that deadline. */
  ghost function Span<W, C(!new)>(s: Sim<W, C>, target: nat): int {
    match Due(s, target) case None => 0 case Some(d) => target - d.at + 1
  }

  ghost function Crowd<W, C(!new)>(s: Sim<W, C>, target: nat): nat {
    match Due(s, target) case None => 0 case Some(d) => CountAt(s.timers, d.at)
  }

  lemma {:induction false} FireThinsOut<W(!new), C(!new)>(p: Effect<W, C>, s: Sim<W, C>, target: nat)
    requires Paced(p) && Valid(s) && Due(s, target).Some?
    ensures var d := Due(s, target).value; CountAt(Fire(p, s, target).timers, d.at) < CountAt(s.timers, d.at)
  {
    DueIsLeast(s, target);
    var d := Due(s, target).value;
    var r := p(s.world, d.fn, d.at, s.nextId);
    CountAtWithout(s.timers, d.id, d.at);
    assert PacedCmds(r.1);
    ObeyAllCount(TakeOut(s, d).(world := r.0), r.1);
  }

  lemma {:induction false} FireGoesDown<W(!new), C(!new)>(p: Effect<W, C>, s: Sim<W, C>, target: nat)
    requires Paced(p) && Valid(s) && Due(s, target).Some?
    ensures var s' := Fire(p, s, target);
      0 <= Span(s', target) && (Span(s', target) < Span(s, target)
        || (Span(s', target) == Span(s, target) && Crowd(s', target) < Crowd(s, target)))
  {
    var s' := Fire(p, s, target);
    FireThinsOut(p, s, target);
    FireKeepsValid(p, s, target);
    FireKeepsNow(p, s, target);
    DueIsLeast(s', target);
  }

  /** With positive delays every tick ends. */
  lemma {:induction false} LoopEnds<W(!new), C(!new)>(p: Effect<W, C>, s: Sim<W, C>, target: nat)
    returns (n: nat, s': Sim<W, C>)
    requires Paced(p) && Valid(s)
    ensures Fires(p, s, target, n, s') && Due(s', target).None?
    decreases Span(s, target), Crowd(s, target)
  {
    if Due(s, target).None? {
      n, s' := 0, s;
    } else {
      FireGoesDown(p, s, target);
      FireKeepsValid(p, s, target);
      n, s' := LoopEnds(p, Fire(p, s, target), target);
      FiresCons(p, s, target, n, s');
      n := n + 1;
    }
  }

  lemma {:induction false} TickEnds<W(!new), C(!new)>(p: Effect<W, C>, s: Sim<W, C>, ms: int) returns (s': Sim<W, C>)
    requires Paced(p) && Valid(s)
    ensures TicksTo(p, s, ms, s')
  {
    var target := s.now + Max0(ms);
    var n, y := LoopEnds(p, s, target);
    NoneDue(y, target);
    s' := y.(now := target);
    assert Ticks(p, s, ms, n, s');
  }

  /** Without them it need not: a callback that sets itself again with no
      delay keeps a tick busy for ever. */
  lemma {:induction false} ZeroDelayNeverEnds<W(!new), C(!new)>(p: Effect<W, C>, s: Sim<W, C>, target: nat, n: nat)
    requires forall w, c, now, id :: p(w, c, now, id) == (w, [Set(0, c)])
    requires Due(s, target).Some?
    ensures FireN(p, s, target, n).Some? && !Settled(FireN(p, s, target, n).value, target)
    decreases n
  {
    NoneDue(s, target);
    if n > 0 {
      var d := Due(s, target).value;
      var s' := Fire(p, s, target);
      ScanIsDue(s.timers, target, None);
      var s1 := s.(timers := Without(s.timers, d.id), now := d.at, fired := s.fired + [d], world := s.world);
      assert s' == ObeyAll(s1, [Set(0, d.fn)]) == ObeyAll(SetTimer(s1, 0, d.fn), []);
      assert Timer(s.nextId, d.at, d.fn) in s'.timers;
      NoneDue(s', target);
      ZeroDelayNeverEnds(p, s', target, n - 1);
    }
  }

  lemma {:induction false} ScanIsDue<C(!new)>(ts: seq<Timer<C>>, target: nat, best: Option<Timer<C>>)
    requires best.Some? ==> best.value.at <= target
    ensures Scan(ts, target, best).Some? ==> Scan(ts, target, best).value.at <= target
  {
    if ts != [] { ScanIsDue(ts[1..], target, Better(target, best, ts[0])); }
  }

  lemma {:induction false} FiresSnoc<W, C(!new)>(p: Effect<W, C>, s: Sim<W, C>, target: nat, n: nat, x: Sim<W, C>)
    requires Fires(p, s, target, n, x) && Due(x, target).Some?
    ensures Fires(p, s, target, n + 1, Fire(p, x, target))
  {
    FireNAdd(p, s, target, n, 1, x);
    FiresCons(p, x, target, 0, Fire(p, x, target));
  }

  lemma {:induction false} TurnOfLoop<W(!new), C(!new)>(p: Effect<W, C>, s0: Sim<W, C>, target: nat, n: nat,
                                        s: Sim<W, C>)
    requires Paced(p) && Valid(s) && Fires(p, s0, target, n, s) && Due(s, target).Some?
    ensures var s' := Fire(p, s, target);
      && Valid(s') && Fires(p, s0, target, n + 1, s') && 0 <= Span(s', target)
      && (Span(s', target) < Span(s, target)
          || (Span(s', target) == Span(s, target) && Crowd(s', target) < Crowd(s, target)))
  {
    FireGoesDown(p, s, target);
    FireKeepsValid(p, s, target);
    FiresSnoc(p, s0, target, n, s);
  }

  lemma {:induction false} TickDone<W(!new), C(!new)>(p: Effect<W, C>, s: Sim<W, C>, ms: int, n: nat, y: Sim<W, C>)
    requires var target := s.now + Max0(ms); Valid(s) && Fires(p, s, target, n, y) && Due(y, target).None?
    ensures var s' := y.(now := s.now + Max0(ms)); Ticks(p, s, ms, n, s') && Valid(s')
  {
    hide Valid, Scan;
    NoneDue(y, s.now + Max0(ms));
    var s' := y.(now := s.now + Max0(ms));
    assert Ticks(p, s, ms, n, s');
    TickFiresWhatIsDue(p, s, ms, n, s');
  }

  // ----- The object -----

  class Clock<W(!new), C(!new)> {
    const effect: Effect<W, C>
    var nowMs: nat
    var nextId: nat
    var timers: seq<Timer<C>>
    var world: W
    ghost var fired: seq<Timer<C>>
    ghost var cleared: set<nat>

    ghost function View(): Sim<W, C>
      reads this
    {
      Sim(nowMs, nextId, timers, world, fired, cleared)
    }

    constructor (effect: Effect<W, C>, world: W)
      ensures View() == Start(world) && Valid(View()) && this.effect == effect
    {
      this.effect := effect;
      nowMs, nextId, timers, this.world := 0, 1, [], world;
      fired, cleared := [], {};
    }

    method SetTimeout(fn: C, ms: int) returns (id: nat)
      modifies this
      ensures View() == SetTimer(old(View()), ms, fn) && id == old(nextId)
      ensures old(Valid(View())) ==> Valid(View())
    {
      ghost var s := View();
      id := nextId;
      timers := timers + [Timer(id, nowMs + Max0(ms), fn)];
      nextId := nextId + 1;
      if Valid(s) { SetKeepsValid(s, ms, fn); }
    }

    method ClearTimeout(id: int)
      modifies this
      ensures View() == ClearTimer(old(View()), id)
      ensures old(Valid(View())) ==> Valid(View())
    {
      ghost var s := View();
      if Valid(s) { ClearKeepsValid(s, id); }
      cleared := ClearTimer(s, id).cleared;
      timers := Without(timers, id);
    }

    /** The clock calls of a running callback. */
    method Perform(cmds: seq<Cmd<C>>)
      modifies this
      ensures View() == ObeyAll(old(View()), cmds)
    {
      var i := 0;
      while i < |cmds|
        invariant 0 <= i <= |cmds|
        invariant ObeyAll(View(), cmds[i..]) == ObeyAll(old(View()), cmds)
      {
        assert cmds[i..][1..] == cmds[i + 1..];
        match cmds[i] {
          case Set(ms, fn) => var _ := SetTimeout(fn, ms);
          case Clear(id) => ClearTimeout(id);
        }
        i := i + 1;
      }
      assert cmds[i..] == [];
    }

    method Tick(ms: int) returns (ghost n: nat)
      requires Valid(View()) && Paced(effect)
      modifies this
      ensures Ticks(effect, old(View()), ms, n, View()) && Valid(View())
    {
      hide FireN, Scan, Valid;
      ghost var s := View();
      var target := nowMs + Max0(ms);
      n := FireAllDue(target);
      ghost var y := View();
      nowMs := target;
      TickDone(effect, s, ms, n, y);
      assert View() == y.(now := target);
    }

    /** The loop of `tick`. */
    method FireAllDue(target: nat) returns (ghost n: nat)
      requires Valid(View()) && Paced(effect)
      modifies this
      ensures Fires(effect, old(View()), target, n, View()) && Due(View(), target).None?
    {
      ghost var s0 := View();
      n := 0;
      while true
        invariant Valid(View()) && Fires(effect, s0, target, n, View())
        decreases Span(View(), target), Crowd(View(), target)
      {
        ghost var s := View();
        var due := FindDue(target);
        if due.None? {
          break;
        }
        TurnOfLoop(effect, s0, target, n, s);
        Run(due.value, target);
        n := n + 1;
      }
    }

    /** Takes a due timer out and runs its callback. */
    method Run(due: Timer<C>, ghost target: nat)
      requires Due(View(), target) == Some(due)
      modifies this
      ensures View() == Fire(effect, old(View()), target)
    {
      timers := Without(timers, due.id);
      nowMs := due.at;
      fired := fired + [due];
      var r := effect(world, due.fn, nowMs, nextId);
      world := r.0;
      Perform(r.1);
    }

    method FindDue(target: nat) returns (due: Option<Timer<C>>)
      ensures due == Due(View(), target)
    {
      due := None;
      var i := 0;
      while i < |timers|
        invariant 0 <= i <= |timers|
        invariant Scan(timers[i..], target, due) == Due(View(), target)
      {
        if timers[i].at <= target && (due.None? || timers[i].at < due.value.at) {
          due := Some(timers[i]);
        }
        i := i + 1;
      }
    }

    method Pending() returns (n: nat)
      ensures n == |timers|
    {
      n := |timers|;
    }
  }
}
