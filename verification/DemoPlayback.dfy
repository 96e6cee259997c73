/** The playback driver over the manual clock. One timer firing or one control
    call is one batch of state changes; when the batch has changed the status
    or the cursor, the scheduling effect is cleaned up and run again. */
module DemoPlayback {
  import opened Results
  import opened ManualClock
  import opened R = DemoReducer

  datatype Status = Playing | Paused | AwaitingGate | Ended

  datatype Callback = ApplyBeat(beat: Beat) | Rewind

  datatype Control = Play | Pause | Restart | ResolveGate

  datatype Script = Script(seed: Seed, beats: seq<Beat>, reduced: bool)

  /** The hook's state and the timer its last effect armed. */
  datatype Hook = Hook(frame: R.State, cursor: nat, status: Status, armed: Option<nat>)

  const LOOP_PAUSE_MS := 4000

  function DelayFor(beat: Beat): nat {
    match beat
    case Post(_, _, sender, _, meta, _, connect) =>
      if connect.Some? then 2200
      else if meta.Some? && |meta.value.tools| > 0 then 2600
      else if meta.Some? then 2000
      else if sender.kind.Human? then 1500 else 1900
    case Tile(_, _, to) => if to.Connecting? then 500 else 900
    case Hire(_, _) => 1000
    case MentionBeat(_, _, _) => 1700
    case Jump(_, _) => 700
  }

  /** The dwell of each kind of beat: an agent's work is read longer, a jump goes by. */
  lemma {:induction false} Dwells(beat: Beat)
    ensures beat.Post? && beat.connect.Some? ==> DelayFor(beat) == 2200
    ensures beat.Post? && beat.connect.None? && beat.meta.Some?
            ==> DelayFor(beat) == if beat.meta.value.tools == [] then 2000 else 2600
    ensures beat.Post? && beat.connect.None? && beat.meta.None? && beat.sender.kind == Human ==> DelayFor(beat) == 1500
    ensures beat.Post? && beat.connect.None? && beat.meta.None? && beat.sender.kind == Agent ==> DelayFor(beat) == 1900
    ensures beat.Tile? ==> DelayFor(beat) == if beat.to == Connecting then 500 else 900
    ensures beat.Hire? ==> DelayFor(beat) == 1000
    ensures beat.MentionBeat? ==> DelayFor(beat) == 1700
    ensures beat.Jump? ==> DelayFor(beat) == 700
  {
  }

  /** The beats after which the viewer must click: posts that ask to connect a service. */
  predicate Asks(beat: Beat) {
    beat.Post? && beat.connect.Some?
  }

  /** What the effect schedules for a cursor. */
  function NextCallback(c: Script, cursor: nat): Callback {
    if cursor >= |c.beats| then Rewind else ApplyBeat(c.beats[cursor])
  }

  function NextDelay(c: Script, cursor: nat): nat {
    if cursor >= |c.beats| then LOOP_PAUSE_MS else DelayFor(c.beats[cursor])
  }

  /** The effect for `h`: clear what the previous one armed, arm anew. */
  function Arm(c: Script, h: Hook, nextId: nat): (Hook, seq<Cmd<Callback>>) {
    var cleanup := if h.armed.Some? then [Clear(h.armed.value)] else [];
    if c.reduced || h.status != Playing then (h.(armed := None), cleanup)
    else (h.(armed := Some(nextId)), cleanup + [Set(NextDelay(c, h.cursor), NextCallback(c, h.cursor))])
  }

  /** The end of a batch that took `before` to `h`. */
  function Commit(c: Script, before: Hook, h: Hook, nextId: nat): (Hook, seq<Cmd<Callback>>) {
    if h.status == before.status && h.cursor == before.cursor then (h, []) else Arm(c, h, nextId)
  }

  function AfterCallback(c: Script, h: Hook, cb: Callback): Hook {
    match cb
    case ApplyBeat(beat) =>
      h.(frame := Reduce(h.frame, beat),
         status := if IsGate(beat) then AwaitingGate else h.status,
         cursor := h.cursor + 1)
    case Rewind => h.(frame := Initial(c.seed), cursor := 0)
  }

  function AfterControl(c: Script, h: Hook, control: Control): Hook {
    match control
    case Play => h.(status := if h.status == Ended || h.status == Paused then Playing else h.status)
    case Pause => h.(status := if h.status == Playing then Paused else h.status)
    case Restart => h.(frame := Initial(c.seed), cursor := 0, status := Playing)
    case ResolveGate => h.(status := if h.status == AwaitingGate then Playing else h.status)
  }

  function Running(c: Script): ManualClock.Effect<Hook, Callback> {
    (h: Hook, cb: Callback, now: nat, nextId: nat) => Commit(c, h, AfterCallback(c, h, cb), nextId)
  }

  type System = Sim<Hook, Callback>

  ghost function Pressed(c: Script, s: System, control: Control): System {
    var r := Commit(c, s.world, AfterControl(c, s.world, control), s.nextId);
    ObeyAll(s.(world := r.0), r.1)
  }

  function FirstHook(c: Script): Hook {
    if c.reduced then Hook(TerminalState(c.seed, c.beats), |c.beats|, Ended, None)
    else Hook(Initial(c.seed), 0, Playing, None)
  }

  ghost function Mount(c: Script): System {
    var r := Arm(c, FirstHook(c), 1);
    ObeyAll(Start(r.0), r.1)
  }

  datatype Event = Elapse(ms: int) | Press(control: Control)

  ghost predicate Step(c: Script, s: System, e: Event, s': System) {
    match e
    case Elapse(ms) => TicksTo(Running(c), s, ms, s')
    case Press(control) => s' == Pressed(c, s, control)
  }

  ghost predicate Run(c: Script, events: seq<Event>, trace: seq<System>) {
    |trace| == |events| + 1 && forall i :: 0 <= i < |events| ==> Step(c, trace[i], events[i], trace[i + 1])
  }

  // ----- The invariant -----

  /** Exactly one timer is pending while playing, and it captured the current
      cursor; none otherwise. */
  ghost predicate ArmedRight(c: Script, s: System) {
    if s.world.status == Playing && !c.reduced
    then && |s.timers| == 1
         && s.world.armed == Some(s.timers[0].id)
         && s.timers[0].fn == NextCallback(c, s.world.cursor)
    else s.timers == [] && s.world.armed == None
  }

  ghost predicate FrameRight(c: Script, h: Hook) {
    && h.cursor <= |c.beats| && h.frame == Frame(c.seed, c.beats, h.cursor)
    && (h.status == AwaitingGate ==> h.cursor > 0 && Asks(c.beats[h.cursor - 1]))
    && (h.status == Ended ==> c.reduced)
  }

  ghost predicate Inv(c: Script, s: System) {
    Valid(s) && ArmedRight(c, s) && FrameRight(c, s.world)
  }

  lemma {:induction false} DelaysPositive(c: Script, cursor: nat)
    ensures NextDelay(c, cursor) >= 500
  {
  }

  /** Running the effect when at most the timer it is about to clear is
      pending. */
  lemma {:induction false} EffectArms(c: Script, s: System, h: Hook)
    requires Valid(s)
    requires s.timers == [] || (|s.timers| == 1 && h.armed == Some(s.timers[0].id))
    ensures var r := Arm(c, h, s.nextId); var s' := ObeyAll(s.(world := r.0), r.1);
      && Valid(s') && s'.world == r.0 && s'.now == s.now && ArmedRight(c, s') && s'.fired == s.fired
      && s'.world == h.(armed := s'.world.armed)
      && (h.status == Playing && !c.reduced ==> s'.timers[0].at == s.now + NextDelay(c, h.cursor))
  {
    var r := Arm(c, h, s.nextId);
    var s1 := s.(world := r.0);
    ObeyAllKeepsValid(s1, r.1);
    DelaysPositive(c, h.cursor);
    var s2 := if h.armed.Some? then ClearTimer(s1, h.armed.value) else s1;
    assert s2.timers == [] by { if s.timers != [] { assert Without(s.timers[1..], h.armed.value) == []; } }
    if h.armed.Some? {
      var rest := r.1[1..];
      assert ObeyAll(s1, r.1) == ObeyAll(s2, rest);
      if h.status == Playing && !c.reduced {
        assert rest == [Set(NextDelay(c, h.cursor), NextCallback(c, h.cursor))];
        assert ObeyAll(s2, rest) == ObeyAll(SetTimer(s2, NextDelay(c, h.cursor), NextCallback(c, h.cursor)), []);
      } else {
        assert rest == [];
      }
    } else if h.status == Playing && !c.reduced {
      assert r.1 == [Set(NextDelay(c, h.cursor), NextCallback(c, h.cursor))];
      assert ObeyAll(s2, r.1) == ObeyAll(SetTimer(s2, NextDelay(c, h.cursor), NextCallback(c, h.cursor)), []);
    }
  }

  lemma {:induction false} MountKeeps(c: Script)
    ensures Inv(c, Mount(c))
    ensures !c.reduced ==> Fresh(c, Mount(c), 0)
  {
    var r := Arm(c, FirstHook(c), 1);
    var s0: System := Start(FirstHook(c));
    EffectArms(c, s0, FirstHook(c));
    assert s0.(world := r.0) == Start(r.0);
  }

  /** Just armed for beat `i`: its whole delay is still to come. */
  ghost predicate Fresh(c: Script, s: System, i: nat) {
    && Inv(c, s) && !c.reduced
    && s.world.status == Playing && s.world.cursor == i
    && s.timers[0].at == s.now + NextDelay(c, i)
  }

  /** The one timer pending is the one fired. */
  lemma {:induction false} OnlyTimerFires(c: Script, s: System, target: nat)
    requires Valid(s) && |s.timers| == 1 && Due(s, target).Some?
    ensures Due(s, target).value == s.timers[0] && s.timers[0].at <= target
    ensures Valid(TakeOut(s, s.timers[0])) && TakeOut(s, s.timers[0]).timers == []
  {
    DueIsLeast(s, target);
    var d := Due(s, target).value;
    assert s.timers == [d];
    TakeOutKeepsValid(s, d);
    assert Without(s.timers[1..], d.id) == [];
  }

  lemma {:induction false} FireRunsEffect(c: Script, s: System, target: nat)
    requires Valid(s) && |s.timers| == 1 && Due(s, target).Some?
    requires s.timers[0].fn == NextCallback(c, s.world.cursor) && c.beats != []
    ensures var out, h := TakeOut(s, s.timers[0]), AfterCallback(c, s.world, s.timers[0].fn);
      var r := Arm(c, h, s.nextId);
      Fire(Running(c), s, target) == ObeyAll(out.(world := r.0), r.1)
  {
    OnlyTimerFires(c, s, target);
    var d := s.timers[0];
    var h := AfterCallback(c, s.world, d.fn);
    assert Running(c)(s.world, d.fn, d.at, s.nextId) == Arm(c, h, s.nextId);
    assert s.(timers := Without(s.timers, d.id), now := d.at, fired := s.fired + [d], world := Arm(c, h, s.nextId).0)
        == TakeOut(s, d).(world := Arm(c, h, s.nextId).0);
  }

  lemma {:induction false} CallbackKeepsFrame(c: Script, h: Hook)
    requires FrameRight(c, h) && h.status == Playing && !c.reduced
    ensures var h' := AfterCallback(c, h, NextCallback(c, h.cursor));
      && FrameRight(c, h')
      && h'.cursor == (if h.cursor < |c.beats| then h.cursor + 1 else 0)
      && h'.status == (if h.cursor < |c.beats| && Asks(c.beats[h.cursor]) then AwaitingGate else Playing)
  {
    hide R.Reduce;
  }

  /** A fired timer: the next beat is applied, or the loop starts over. */
  lemma {:induction false} FireAdvances(c: Script, s: System, target: nat)
    requires Inv(c, s) && c.beats != [] && Due(s, target).Some?
    ensures var s' := Fire(Running(c), s, target);
      && Inv(c, s') && s.world.status == Playing && !c.reduced && s'.now == s.timers[0].at
      && s'.world.cursor == (if s.world.cursor < |c.beats| then s.world.cursor + 1 else 0)
      && s'.world.status == (if s.world.cursor < |c.beats| && Asks(c.beats[s.world.cursor]) then AwaitingGate
                             else Playing)
      && (s'.world.status == Playing ==> Fresh(c, s', s'.world.cursor))
  {
    NoneDue(s, target);
    assert s.timers != [];
    OnlyTimerFires(c, s, target);
    FireRunsEffect(c, s, target);
    CallbackKeepsFrame(c, s.world);
    EffectArms(c, TakeOut(s, s.timers[0]), AfterCallback(c, s.world, s.timers[0].fn));
  }

  lemma {:induction false} FireKeepsInv(c: Script, s: System, target: nat)
    requires Inv(c, s) && c.beats != [] && Due(s, target).Some?
    ensures Inv(c, Fire(Running(c), s, target))
  {
    FireAdvances(c, s, target);
  }

  lemma {:induction false} FiresKeepInv(c: Script, s: System, target: nat, n: nat, s': System)
    requires Inv(c, s) && c.beats != [] && Fires(Running(c), s, target, n, s')
    ensures Inv(c, s')
  {
    forall x | Inv(c, x) && Due(x, target).Some?
      ensures Inv(c, Fire(Running(c), x, target))
    {
      FireKeepsInv(c, x, target);
    }
    FiresKeep(Running(c), s, target, n, s', x => Inv(c, x));
  }

  lemma {:induction false} ElapseKeepsInv(c: Script, s: System, ms: int, s': System)
    requires Inv(c, s) && c.beats != [] && TicksTo(Running(c), s, ms, s')
    ensures Inv(c, s')
  {
    var n: nat :| Ticks(Running(c), s, ms, n, s');
    var y := LoopEnd(Running(c), s, ms, n, s');
    FiresKeepInv(c, s, s.now + Max0(ms), n, y);
    TickFiresWhatIsDue(Running(c), s, ms, n, s');
  }

  lemma {:induction false} PressKeepsInv(c: Script, s: System, control: Control)
    requires Inv(c, s) && c.beats != []
    ensures Inv(c, Pressed(c, s, control))
    ensures Pressed(c, s, control).now == s.now && Pressed(c, s, control).fired == s.fired
    ensures s.world.status == AwaitingGate && control == ResolveGate && !c.reduced
            ==> Fresh(c, Pressed(c, s, control), s.world.cursor)
  {
    var h := AfterControl(c, s.world, control);
    if h.status == s.world.status && h.cursor == s.world.cursor {
      assert Pressed(c, s, control) == s.(world := h);
    } else {
      EffectArms(c, s, h);
    }
  }

  lemma {:induction false} RunningIsPaced(c: Script)
    ensures Paced(Running(c))
  {
    hide R.Reduce, Asks, NextDelay, NextCallback;
    forall h: Hook, cb: Callback, now: nat, nextId: nat
      ensures PacedCmds(Running(c)(h, cb, now, nextId).1)
    {
      DelaysPositive(c, AfterCallback(c, h, cb).cursor);
    }
  }

  /** However long the time asked for, and wherever the playback stands, letting
      it pass ends, in one state. */
  lemma {:induction false} EveryTickEnds(c: Script, s: System, ms: int) returns (s': System)
    requires Inv(c, s) && c.beats != []
    ensures TicksTo(Running(c), s, ms, s') && Inv(c, s')
    ensures forall other :: TicksTo(Running(c), s, ms, other) ==> other == s'
  {
    RunningIsPaced(c);
    s' := TickEnds(Running(c), s, ms);
    ElapseKeepsInv(c, s, ms, s');
    forall other | TicksTo(Running(c), s, ms, other)
      ensures other == s'
    {
      TickIsDeterministic(Running(c), s, ms, other, s');
    }
  }

  /** In every state reached from mounting by letting time pass and pressing
      controls, in any order: the frame is the fold of the first `cursor`
      beats; one timer is pending while playing, for that very beat, and none
      otherwise; a pause for a click stands right after a gate; and only a
      reduced-motion playback is ever at "ended". */
  lemma {:induction false} PlaybackInvariant(c: Script, events: seq<Event>, trace: seq<System>, i: nat)
    requires c.beats != [] && Run(c, events, trace) && trace[0] == Mount(c) && i < |trace|
    ensures Inv(c, trace[i])
  {
    hide Inv, Mount, TicksTo, Pressed;
    if i == 0 {
      MountKeeps(c);
    } else {
      PlaybackInvariant(c, events, trace, i - 1);
      assert Step(c, trace[i - 1], events[i - 1], trace[i]);
      match events[i - 1]
      case Elapse(ms) => ElapseKeepsInv(c, trace[i - 1], ms, trace[i]);
      case Press(control) => PressKeepsInv(c, trace[i - 1], control);
    }
  }

  predicate MovesOn(e: Event) {
    e == Event.Press(ResolveGate) || e == Event.Press(Restart)
  }

  /** After a gate, whatever happens but the click or a restart, and for however
      long, nothing moves the story. */
  lemma {:induction false} GateHolds(c: Script, events: seq<Event>, trace: seq<System>, i: nat)
    requires Run(c, events, trace) && Inv(c, trace[0]) && trace[0].world.status == AwaitingGate && i <= |events|
    requires forall k :: 0 <= k < i ==> !MovesOn(events[k])
    ensures trace[i].world == trace[0].world && trace[i].timers == [] && trace[i].fired == trace[0].fired
  {
    hide Step, Valid, FrameRight;
    if i > 0 {
      GateHolds(c, events, trace, i - 1);
      assert Step(c, trace[i - 1], events[i - 1], trace[i]);
      GateStep(c, trace[i - 1], events[i - 1], trace[i]);
    }
  }

  lemma {:induction false} GateStep(c: Script, s: System, e: Event, s': System)
    requires s.timers == [] && s.world.status == AwaitingGate && Step(c, s, e, s') && !MovesOn(e)
    ensures s'.world == s.world && s'.timers == [] && s'.fired == s.fired
  {
    match e
    case Press(control) => assert Pressed(c, s, control) == s;
    case Elapse(ms) => StillTick(Running(c), s, ms, s');
  }

  /** A tick over no timers only moves the clock. */
  lemma {:induction false} StillTick(p: ManualClock.Effect<Hook, Callback>, s: System, ms: int, s': System)
    requires s.timers == []
    ensures TicksTo(p, s, ms, s') <==> s' == s.(now := s.now + Max0(ms))
  {
    var s1 := s.(now := s.now + Max0(ms));
    assert Ticks(p, s, ms, 0, s1);
    if TicksTo(p, s, ms, s') {
      var n: nat :| Ticks(p, s, ms, n, s');
      NoneDue(s, s.now + Max0(ms));
    }
  }

  // ----- Driving the whole script -----

  /** The time the beats `i` to `j` take. */
  function TotalDelay(c: Script, i: nat, j: nat): nat
    requires i <= j <= |c.beats|
  {
    if i == j then 0 else TotalDelay(c, i, j - 1) + DelayFor(c.beats[j - 1])
  }

  predicate GateFree(c: Script, i: nat, j: nat)
    requires i <= j <= |c.beats|
  {
    forall k :: i <= k < j ==> !Asks(c.beats[k])
  }

  lemma {:induction false} FreshIsDue(c: Script, s: System, i: nat)
    requires Fresh(c, s, i)
    ensures Due(s, s.now + NextDelay(c, i)).Some?
  {
    NoneDue(s, s.now + NextDelay(c, i));
    assert s.timers[0] in s.timers;
  }

  /** One tick by the armed delay fires that timer and no other. */
  lemma {:induction false} OneFiring(c: Script, s: System, i: nat) returns (s': System)
    requires c.beats != [] && Fresh(c, s, i)
    ensures TicksTo(Running(c), s, NextDelay(c, i), s') && Inv(c, s')
    ensures s'.world.cursor == (if i < |c.beats| then i + 1 else 0)
    ensures if i < |c.beats| && Asks(c.beats[i]) then s'.world.status == AwaitingGate
            else Fresh(c, s', s'.world.cursor)
  {
    hide Inv, Fire, Due, TicksTo;
    var target := s.now + NextDelay(c, i);
    FreshIsDue(c, s, i);
    FireAdvances(c, s, target);
    s' := Fire(Running(c), s, target);
    FiringSettles(c, s', target);
    OneFiringTicks(Running(c), s, NextDelay(c, i), s');
  }

  lemma {:induction false} FiringSettles(c: Script, s: System, target: nat)
    requires Inv(c, s) && s.now == target
    requires s.world.status == Playing && !c.reduced ==> Fresh(c, s, s.world.cursor)
    ensures Settled(s, target)
  {
    DelaysPositive(c, s.world.cursor);
  }

  lemma {:induction false} OneFiringTicks(p: ManualClock.Effect<Hook, Callback>, s: System, ms: nat, s': System)
    requires Due(s, s.now + ms).Some? && s' == Fire(p, s, s.now + ms)
    requires Settled(s', s.now + ms) && s'.now == s.now + ms
    ensures TicksTo(p, s, ms, s')
  {
    FiresCons(p, s, s.now + ms, 0, s');
    assert s' == s'.(now := s.now + ms);
    assert Ticks(p, s, ms, 1, s');
  }

  lemma {:induction false} TickThroughOne(c: Script, s: System, x: System, i: nat, j: nat) returns (s': System)
    requires c.beats != [] && i < j <= |c.beats| && !Asks(c.beats[j - 1]) && Fresh(c, x, j - 1)
    requires TicksTo(Running(c), s, TotalDelay(c, i, j - 1), x)
    ensures TicksTo(Running(c), s, TotalDelay(c, i, j), s') && Fresh(c, s', j)
  {
    hide Fresh, TicksTo, Inv, Asks, TotalDelay;
    s' := OneFiring(c, x, j - 1);
    TicksJoin(Running(c), s, x, TotalDelay(c, i, j - 1), DelayFor(c.beats[j - 1]), s');
    TotalDelayStep(c, i, j);
  }

  lemma {:induction false} TotalDelayStep(c: Script, i: nat, j: nat)
    requires i < j <= |c.beats|
    ensures TotalDelay(c, i, j) == TotalDelay(c, i, j - 1) + DelayFor(c.beats[j - 1])
  {
  }

  lemma {:induction false} TicksJoin(p: ManualClock.Effect<Hook, Callback>, s: System, x: System, a: nat, b: nat,
                                     s': System)
    requires TicksTo(p, s, a, x) && TicksTo(p, x, b, s')
    ensures TicksTo(p, s, a + b, s')
  {
    TickSplits(p, s, a, b, s');
  }

  lemma {:induction false} TickThroughBeats(c: Script, s: System, i: nat, j: nat) returns (s': System)
    requires c.beats != [] && Fresh(c, s, i) && i <= j <= |c.beats| && GateFree(c, i, j)
    ensures TicksTo(Running(c), s, TotalDelay(c, i, j), s') && Fresh(c, s', j)
    decreases j
  {
    if i == j {
      s' := s;
      NoDelayTicks(c, s);
    } else {
      var x := TickThroughBeats(c, s, i, j - 1);
      s' := TickThroughOne(c, s, x, i, j);
    }
  }

  lemma {:induction false} NoDelayTicks(c: Script, s: System)
    requires Fresh(c, s, s.world.cursor)
    ensures TicksTo(Running(c), s, 0, s)
  {
    FiringSettles(c, s, s.now);
    assert Ticks(Running(c), s, 0, 0, s);
  }

  /** A gate-free script ticked by the sum of its delays shows exactly the
      terminal frame, and 4000 ms later the initial one again. */
  lemma {:induction false} GateFreePlayback(c: Script, s1: System, s2: System)
    requires c.beats != [] && !c.reduced && GateFree(c, 0, |c.beats|)
    requires TicksTo(Running(c), Mount(c), TotalDelay(c, 0, |c.beats|), s1)
    requires TicksTo(Running(c), s1, 4000, s2)
    ensures s1.world.frame == TerminalState(c.seed, c.beats) && s1.world.cursor == |c.beats|
    ensures s2.world.frame == Initial(c.seed) && s2.world.cursor == 0 && Fresh(c, s2, 0)
  {
    MountKeeps(c);
    var x := TickThroughBeats(c, Mount(c), 0, |c.beats|);
    TickIsDeterministic(Running(c), Mount(c), TotalDelay(c, 0, |c.beats|), x, s1);
    LoopsOver(c, s1, s2);
  }

  /** A viewer who clicks each gate once, after waiting as long as they like. */
  function ViewBeat(c: Script, waits: seq<nat>, k: nat): seq<Event>
    requires k < |c.beats| == |waits|
  {
    [Elapse(DelayFor(c.beats[k]))] + if Asks(c.beats[k]) then [Elapse(waits[k]), Event.Press(ResolveGate)] else []
  }

  function Viewing(c: Script, waits: seq<nat>, n: nat): seq<Event>
    requires n <= |c.beats| == |waits|
  {
    if n == 0 then [] else Viewing(c, waits, n - 1) + ViewBeat(c, waits, n - 1)
  }

  function Clicks(events: seq<Event>): nat {
    if events == [] then 0 else Clicks(events[..|events| - 1]) + if events[|events| - 1].Press? then 1 else 0
  }

  function Gates(c: Script, n: nat): nat
    requires n <= |c.beats|
  {
    if n == 0 then 0 else Gates(c, n - 1) + if Asks(c.beats[n - 1]) then 1 else 0
  }

  lemma {:induction false} ClicksSnoc(events: seq<Event>, e: Event)
    ensures Clicks(events + [e]) == Clicks(events) + if e.Press? then 1 else 0
  {
    assert (events + [e])[..|events|] == events;
  }

  lemma {:induction false} ClicksMatchGates(c: Script, waits: seq<nat>, n: nat)
    requires n <= |c.beats| == |waits|
    ensures Clicks(Viewing(c, waits, n)) == Gates(c, n)
  {
    if n > 0 {
      ClicksMatchGates(c, waits, n - 1);
      var v := Viewing(c, waits, n - 1);
      var e, w := Elapse(DelayFor(c.beats[n - 1])), Elapse(waits[n - 1]);
      ClicksSnoc(v, e);
      if Asks(c.beats[n - 1]) {
        ClicksSnoc(v + [e], w);
        ClicksSnoc(v + [e] + [w], Event.Press(ResolveGate));
        assert Viewing(c, waits, n) == v + [e] + [w] + [Event.Press(ResolveGate)];
      } else {
        assert Viewing(c, waits, n) == v + [e];
      }
    }
  }

  /** One beat of that viewing, from just armed to just armed. */
  lemma {:induction false} ViewOneBeat(c: Script, waits: seq<nat>, s: System, k: nat) returns (trace: seq<System>)
    requires c.beats != [] && k < |c.beats| == |waits| && Fresh(c, s, k)
    ensures Run(c, ViewBeat(c, waits, k), trace) && trace[0] == s && Fresh(c, trace[|trace| - 1], k + 1)
  {
    var x := OneFiring(c, s, k);
    if Asks(c.beats[k]) {
      var y := WaitAndClick(c, x, waits[k]);
      trace := [s, x, y, Pressed(c, y, ResolveGate)];
      RunThree(c, Elapse(DelayFor(c.beats[k])), Elapse(waits[k]), Event.Press(ResolveGate), s, x, y,
          Pressed(c, y, ResolveGate));
    } else {
      trace := [s, x];
      RunOne(c, Elapse(DelayFor(c.beats[k])), s, x);
    }
  }

  lemma {:induction false} RunOne(c: Script, e: Event, s: System, x: System)
    requires Step(c, s, e, x)
    ensures Run(c, [e] + [], [s, x])
  {
  }

  lemma {:induction false} RunThree(c: Script, e1: Event, e2: Event, e3: Event, s: System, x: System, y: System,
                                    z: System)
    requires Step(c, s, e1, x) && Step(c, x, e2, y) && Step(c, y, e3, z)
    ensures Run(c, [e1] + [e2, e3], [s, x, y, z])
  {
  }

  /** At a gate: a wait changes nothing, and a click arms the next beat. */
  lemma {:induction false} WaitAndClick(c: Script, x: System, wait: nat) returns (y: System)
    requires Inv(c, x) && c.beats != [] && !c.reduced && x.world.status == AwaitingGate
    ensures Step(c, x, Elapse(wait), y) && Step(c, y, Event.Press(ResolveGate), Pressed(c, y, ResolveGate))
    ensures Fresh(c, Pressed(c, y, ResolveGate), x.world.cursor)
  {
    y := x.(now := x.now + wait);
    StillTick(Running(c), x, wait, y);
    ElapseKeepsInv(c, x, wait, y);
    PressKeepsInv(c, y, ResolveGate);
  }

  lemma {:induction false} RunAppend(c: Script, e1: seq<Event>, t1: seq<System>, e2: seq<Event>, t2: seq<System>)
    requires Run(c, e1, t1) && Run(c, e2, t2) && t1[|t1| - 1] == t2[0]
    ensures Run(c, e1 + e2, t1 + t2[1..])
  {
    var t := t1 + t2[1..];
    forall i | 0 <= i < |e1 + e2|
      ensures Step(c, t[i], (e1 + e2)[i], t[i + 1])
    {
      JoinAt(t1, t2, e1, e2, i);
      if i < |e1| {
        assert Step(c, t1[i], e1[i], t1[i + 1]);
      } else {
        assert Step(c, t2[i - |e1|], e2[i - |e1|], t2[i - |e1| + 1]);
      }
    }
  }

  lemma {:induction false} JoinAt<S, E>(t1: seq<S>, t2: seq<S>, e1: seq<E>, e2: seq<E>, i: nat)
    requires |t1| == |e1| + 1 && |t2| == |e2| + 1 && t1[|t1| - 1] == t2[0] && i < |e1 + e2|
    ensures var t := t1 + t2[1..];
      if i < |e1| then t[i] == t1[i] && t[i + 1] == t1[i + 1] && (e1 + e2)[i] == e1[i]
      else t[i] == t2[i - |e1|] && t[i + 1] == t2[i - |e1| + 1] && (e1 + e2)[i] == e2[i - |e1|]
  {
  }

  lemma {:induction false} ViewingRuns(c: Script, waits: seq<nat>, n: nat) returns (trace: seq<System>)
    requires c.beats != [] && !c.reduced && n <= |c.beats| == |waits|
    ensures Run(c, Viewing(c, waits, n), trace) && trace[0] == Mount(c) && Fresh(c, trace[|trace| - 1], n)
  {
    hide Fresh, Mount;
    if n == 0 {
      MountKeeps(c);
      trace := [Mount(c)];
    } else {
      var t1 := ViewingRuns(c, waits, n - 1);
      var t2 := ViewOneBeat(c, waits, t1[|t1| - 1], n - 1);
      RunAppend(c, Viewing(c, waits, n - 1), t1, ViewBeat(c, waits, n - 1), t2);
      JoinEnds(t1, t2);
      ViewingStep(c, waits, n);
      trace := t1 + t2[1..];
    }
  }

  lemma {:induction false} JoinEnds<S>(t1: seq<S>, t2: seq<S>)
    requires t1 != [] && t2 != [] && t1[|t1| - 1] == t2[0]
    ensures var t := t1 + t2[1..]; t != [] && t[0] == t1[0] && t[|t| - 1] == t2[|t2| - 1]
  {
  }

  lemma {:induction false} ViewingStep(c: Script, waits: seq<nat>, n: nat)
    requires 0 < n <= |c.beats| == |waits|
    ensures Viewing(c, waits, n) == Viewing(c, waits, n - 1) + ViewBeat(c, waits, n - 1)
  {
  }

  lemma {:induction false} RunIsDeterministic(c: Script, events: seq<Event>, t1: seq<System>, t2: seq<System>, i: nat)
    requires Run(c, events, t1) && Run(c, events, t2) && t1[0] == t2[0] && i <= |events|
    ensures t1[i] == t2[i]
  {
    if i > 0 {
      RunIsDeterministic(c, events, t1, t2, i - 1);
      assert Step(c, t1[i - 1], events[i - 1], t1[i]) && Step(c, t2[i - 1], events[i - 1], t2[i]);
      match events[i - 1]
      case Elapse(ms) => TickIsDeterministic(Running(c), t1[i - 1], ms, t1[i], t2[i]);
      case Press(_) =>
    }
  }

  /** With gates, one click a gate is enough, whatever the waits: the viewing
      ends on the terminal frame, and 4000 ms later the initial one shows. */
  lemma {:induction false} GatedPlayback(c: Script, waits: seq<nat>, trace: seq<System>, after: System)
    requires c.beats != [] && !c.reduced && |waits| == |c.beats|
    requires Run(c, Viewing(c, waits, |c.beats|), trace) && trace[0] == Mount(c)
    requires TicksTo(Running(c), trace[|trace| - 1], 4000, after)
    ensures trace[|trace| - 1].world.frame == TerminalState(c.seed, c.beats)
    ensures trace[|trace| - 1].world.cursor == |c.beats|
    ensures after.world.frame == Initial(c.seed) && after.world.cursor == 0 && Fresh(c, after, 0)
    ensures Clicks(Viewing(c, waits, |c.beats|)) == Gates(c, |c.beats|)
  {
    var t := ViewingRuns(c, waits, |c.beats|);
    RunIsDeterministic(c, Viewing(c, waits, |c.beats|), t, trace, |trace| - 1);
    LoopsOver(c, trace[|trace| - 1], after);
    ClicksMatchGates(c, waits, |c.beats|);
  }

  /** 4000 ms after the last beat the playback is back at its first frame. */
  lemma {:induction false} LoopsOver(c: Script, s: System, after: System)
    requires c.beats != [] && Fresh(c, s, |c.beats|) && TicksTo(Running(c), s, 4000, after)
    ensures s.world.frame == TerminalState(c.seed, c.beats)
    ensures after.world.frame == Initial(c.seed) && after.world.cursor == 0 && Fresh(c, after, 0)
  {
    var y := OneFiring(c, s, |c.beats|);
    TickIsDeterministic(Running(c), s, 4000, y, after);
  }

  /** Under reduced motion no timer ever runs: the terminal frame shows until
      the first restart, and the initial frame from then on. */
  lemma {:induction false} ReducedPlayback(c: Script, events: seq<Event>, trace: seq<System>, i: nat)
    requires c.reduced && Run(c, events, trace) && trace[0] == Mount(c) && i <= |events|
    ensures trace[i].timers == [] && trace[i].world.armed == None && trace[i].fired == []
    ensures trace[i].world.frame == if Event.Press(Restart) in events[..i] then Initial(c.seed)
                                    else TerminalState(c.seed, c.beats)
  {
    hide Step, TerminalState;
    if i > 0 {
      ReducedPlayback(c, events, trace, i - 1);
      assert events[..i] == events[..i - 1] + [events[i - 1]];
      assert Step(c, trace[i - 1], events[i - 1], trace[i]);
      ReducedStep(c, trace[i - 1], events[i - 1], trace[i]);
    }
  }

  lemma {:induction false} ReducedStep(c: Script, s: System, e: Event, s': System)
    requires c.reduced && Step(c, s, e, s') && s.timers == [] && s.world.armed == None
    ensures s'.timers == [] && s'.world.armed == None && s'.fired == s.fired
    ensures s'.world.frame == if e == Event.Press(Restart) then Initial(c.seed) else s.world.frame
  {
    if e.Elapse? { StillTick(Running(c), s, e.ms, s'); }
  }

  // ----- Pausing, playing on and starting over -----

  /** Pausing takes the timer away, and playing on arms the very beat that was
      due, with its whole delay to come. */
  lemma {:induction false} PauseThenPlay(c: Script, s: System)
    requires Inv(c, s) && !c.reduced && s.world.status == Playing
    ensures var p := Pressed(c, s, Pause); var q := Pressed(c, p, Play);
      && p.world.status == Paused && p.timers == []
      && p.world.frame == s.world.frame && p.world.cursor == s.world.cursor
      && q.world.frame == s.world.frame && q.now == s.now && q.fired == s.fired && Fresh(c, q, s.world.cursor)
  {
    hide Frame;
    var p := Pressed(c, s, Pause);
    EffectArms(c, s, AfterControl(c, s.world, Pause));
    EffectArms(c, p, AfterControl(c, p.world, Play));
  }

  /** A restart shows the first frame and plays, from any state; only when that
      is how things stand already does the pending timer stay as it is. */
  lemma {:induction false} RestartStartsOver(c: Script, s: System)
    requires Inv(c, s) && !c.reduced
    ensures var q := Pressed(c, s, Restart);
      && q.world.frame == Initial(c.seed) && q.world.cursor == 0 && q.world.status == Playing && q.now == s.now
      && if s.world.status == Playing && s.world.cursor == 0 then q.timers == s.timers else Fresh(c, q, 0)
  {
    if !(s.world.status == Playing && s.world.cursor == 0) {
      EffectArms(c, s, AfterControl(c, s.world, Restart));
    }
  }

  /** Press `k` paused a playing playback, and nothing set it going since. */
  ghost predicate PausedBy(events: seq<Event>, trace: seq<System>, k: nat, i: nat)
    requires |trace| == |events| + 1
  {
    && k < i <= |events| && events[k] == Event.Press(Pause) && trace[k].world.status == Playing
    && forall j :: k < j < i ==> !Starts(events[j])
  }

  /** Over every run, with reduced motion or without, the status is "paused"
      just when a pause took effect and no play or restart came since. */
  lemma {:induction false} PausedExactly(c: Script, events: seq<Event>, trace: seq<System>, i: nat)
    requires c.beats != [] && Run(c, events, trace) && trace[0] == Mount(c) && i <= |events|
    ensures trace[i].world.status == Paused <==> exists k: nat :: PausedBy(events, trace, k, i)
  {
    hide Step, Mount, Valid, FrameRight, TicksTo;
    if i == 0 {
      StartsUnpaused(c);
    } else {
      PausedExactly(c, events, trace, i - 1);
      PlaybackInvariant(c, events, trace, i - 1);
      assert Step(c, trace[i - 1], events[i - 1], trace[i]);
      PausedStep(c, trace[i - 1], events[i - 1], trace[i]);
      var before: nat := i - 1;
      if exists k: nat :: PausedBy(events, trace, k, before) {
        var k: nat :| PausedBy(events, trace, k, before);
        assert !Starts(events[i - 1]) ==> PausedBy(events, trace, k, i);
      }
      if events[i - 1] == Event.Press(Pause) && trace[i - 1].world.status == Playing {
        assert PausedBy(events, trace, i - 1, i);
      }
      if exists k: nat :: PausedBy(events, trace, k, i) {
        var k: nat :| PausedBy(events, trace, k, i);
        assert k < i - 1 ==> PausedBy(events, trace, k, i - 1);
      }
    }
  }

  lemma {:induction false} StartsUnpaused(c: Script)
    ensures Mount(c).world.status != Paused
  {
    MountKeeps(c);
  }

  lemma {:induction false} PausedStep(c: Script, s: System, e: Event, s': System)
    requires c.beats != [] && Inv(c, s) && Step(c, s, e, s')
    ensures s'.world.status == Paused
       <==> (s.world.status == Paused && !Starts(e)) || (e == Event.Press(Pause) && s.world.status == Playing)
  {
    hide Valid, FrameRight, Pressed;
    match e
    case Elapse(ms) => if s.timers == [] { StillTick(Running(c), s, ms, s'); } else { NeverTicksToPause(c, s, ms, s'); }
    case Press(control) => PausedPress(c, s, control);
  }

  lemma {:induction false} PausedPress(c: Script, s: System, control: Control)
    requires Inv(c, s)
    ensures Pressed(c, s, control).world.status == Paused
       <==> (s.world.status == Paused && control != Play && control != Restart)
            || (control == Pause && s.world.status == Playing)
  {
    hide Frame;
    var h := AfterControl(c, s.world, control);
    if h.status != s.world.status || h.cursor != s.world.cursor {
      EffectArms(c, s, h);
    } else {
      assert Pressed(c, s, control) == s.(world := h);
    }
  }

  /** Time passing never pauses: a firing leaves the playback playing or at a gate. */
  lemma {:induction false} NeverTicksToPause(c: Script, s: System, ms: int, s': System)
    requires c.beats != [] && Inv(c, s) && s.world.status == Playing && TicksTo(Running(c), s, ms, s')
    ensures s'.world.status != Paused
  {
    hide Valid, FrameRight;
    var n: nat :| Ticks(Running(c), s, ms, n, s');
    var y := LoopEnd(Running(c), s, ms, n, s');
    forall x | Unpaused(c, x) && Due(x, s.now + Max0(ms)).Some?
      ensures Unpaused(c, Fire(Running(c), x, s.now + Max0(ms)))
    {
      FireAdvances(c, x, s.now + Max0(ms));
    }
    FiresKeep(Running(c), s, s.now + Max0(ms), n, y, x => Unpaused(c, x));
  }

  ghost predicate Unpaused(c: Script, s: System) {
    Inv(c, s) && s.world.status != Paused
  }

  predicate Starts(e: Event) {
    e == Event.Press(Play) || e == Event.Press(Restart)
  }

  // ----- The status "ended" -----

  /** "Ended" shows just under reduced motion and until the first play or
      restart; no playback ever comes to it, at its end or otherwise. */
  lemma {:induction false} EndedExactly(c: Script, events: seq<Event>, trace: seq<System>, i: nat)
    requires c.beats != [] && Run(c, events, trace) && trace[0] == Mount(c) && i <= |events|
    ensures trace[i].world.status == Ended <==> c.reduced && forall k :: 0 <= k < i ==> !Starts(events[k])
  {
    hide Step, Mount, Valid, ArmedRight;
    PlaybackInvariant(c, events, trace, i);
    if c.reduced {
      if i == 0 {
        ReducedStartsEnded(c);
      } else {
        EndedExactly(c, events, trace, i - 1);
        ReducedPlayback(c, events, trace, i - 1);
        assert Step(c, trace[i - 1], events[i - 1], trace[i]);
        EndedStep(c, trace[i - 1], events[i - 1], trace[i]);
      }
    }
  }

  lemma {:induction false} ReducedStartsEnded(c: Script)
    requires c.reduced
    ensures Mount(c).world.status == Ended
  {
  }

  lemma {:induction false} EndedStep(c: Script, s: System, e: Event, s': System)
    requires c.reduced && Step(c, s, e, s') && s.timers == [] && s.world.armed == None
    ensures s'.world.status == Ended <==> s.world.status == Ended && !Starts(e)
  {
    if e.Elapse? { StillTick(Running(c), s, e.ms, s'); }
  }

  /** A whole viewing, paused at its end, stands at "paused" and not at "ended". */
  lemma {:induction false} PausedAtTheEnd(c: Script, waits: seq<nat>) returns (trace: seq<System>)
    requires c.beats != [] && !c.reduced && |waits| == |c.beats|
    ensures Run(c, Viewing(c, waits, |c.beats|) + [Event.Press(Pause)], trace) && trace[0] == Mount(c)
    ensures var h := trace[|trace| - 1].world;
      h.cursor == |c.beats| && h.frame == TerminalState(c.seed, c.beats) && h.status == Paused
  {
    hide Mount, Step, Valid, ArmedRight, TerminalState, Frame;
    var t := ViewingRuns(c, waits, |c.beats|);
    var s := t[|t| - 1];
    var s' := Pressed(c, s, Pause);
    PauseStays(c, s);
    assert Step(c, s, Event.Press(Pause), s') by { StepOfPress(c, s, Pause); }
    RunOne(c, Event.Press(Pause), s, s');
    assert [Event.Press(Pause)] + [] == [Event.Press(Pause)];
    RunAppend(c, Viewing(c, waits, |c.beats|), t, [Event.Press(Pause)], [s, s']);
    trace := t + [s, s'][1..];
    JoinEnds(t, [s, s']);
  }

  lemma {:induction false} StepOfPress(c: Script, s: System, control: Control)
    ensures Step(c, s, Event.Press(control), Pressed(c, s, control))
  {
  }

  lemma {:induction false} PauseStays(c: Script, s: System)
    requires Fresh(c, s, |c.beats|)
    ensures var h := Pressed(c, s, Pause).world;
      h.cursor == |c.beats| && h.frame == TerminalState(c.seed, c.beats) && h.status == Paused
  {
    EffectArms(c, s, AfterControl(c, s.world, Pause));
  }

  // ----- The object -----

  class Playback {
    const script: Script
    const clock: Clock<Hook, Callback>

    ghost predicate Ready()
      reads clock
    {
      clock.effect == Running(script)
    }

    constructor (script: Script)
      ensures Ready() && fresh(clock) && this.script == script && clock.View() == Mount(script)
      ensures Inv(script, clock.View())
    {
      MountKeeps(script);
      var r := Arm(script, FirstHook(script), 1);
      var k := new Clock(Running(script), r.0);
      k.Perform(r.1);
      this.script, clock := script, k;
    }

    method Control(control: Control)
      requires Ready() && script.beats != [] && Inv(script, clock.View())
      modifies clock
      ensures clock.View() == Pressed(script, old(clock.View()), control)
      ensures Ready() && Inv(script, clock.View())
    {
      PressKeepsInv(script, clock.View(), control);
      var before := clock.world;
      var h := AfterControl(script, before, control);
      var r := Commit(script, before, h, clock.nextId);
      clock.world := r.0;
      clock.Perform(r.1);
    }

    /** Time passing: the clock may be ticked, and the tick ends. */
    method Elapse(ms: int)
      requires Ready() && script.beats != [] && Inv(script, clock.View())
      modifies clock
      ensures TicksTo(Running(script), old(clock.View()), ms, clock.View())
      ensures Ready() && Inv(script, clock.View())
    {
      ghost var s := clock.View();
      RunningIsPaced(script);
      ghost var n := clock.Tick(ms);
      ElapseKeepsInv(script, s, ms, clock.View());
    }

    /** The act being played: the last one started. */
    method Act(actStarts: seq<nat>) returns (a: nat)
      ensures a < |actStarts| || a == 0
      ensures forall i :: a < i < |actStarts| ==> clock.world.cursor < actStarts[i]
      ensures a > 0 ==> actStarts[a] <= clock.world.cursor
    {
      a := 0;
      for i := 0 to |actStarts|
        invariant a <= i && (a < i || a == 0)
        invariant forall j :: a < j < i ==> clock.world.cursor < actStarts[j]
        invariant a > 0 ==> actStarts[a] <= clock.world.cursor
      {
        if clock.world.cursor >= actStarts[i] {
          a := i;
        }
      }
    }
  }
}
