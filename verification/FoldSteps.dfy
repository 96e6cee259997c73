/** What one row does to each part of the fold's state. */
module FoldSteps {
  import opened Results
  import opened ChatBody
  import opened FoldModel

  /** Numbers from `lo` up to `hi`. */
  function Range(lo: nat, hi: nat): seq<nat>
    requires lo <= hi
  {
    seq(hi - lo, (i: nat) => lo + i)
  }

  function NewTools(calls: seq<ToolCall>): seq<Tool> {
    seq(|calls|, (i: nat) requires i < |calls| => Tool(calls[i], Running, None, None))
  }

  lemma {:induction false} AddCallEffect(s: State, agent: string, c: ToolCall)
    requires agent in s.pending
    ensures AddCall(s, agent, c).tools == s.tools + [Tool(c, Running, None, None)]
    ensures AddCall(s, agent, c).pending
            == s.pending[agent := s.pending[agent].(tools := s.pending[agent].tools + [|s.tools|])]
  {
  }

  lemma {:induction false} RangeSnoc(before: seq<nat>, lo: nat, hi: nat)
    requires lo <= hi
    ensures before + Range(lo, hi + 1) == before + Range(lo, hi) + [hi]
  {
    assert Range(lo, hi + 1) == Range(lo, hi) + [hi];
  }

  lemma {:induction false} NewToolsSnoc(before: seq<Tool>, calls: seq<ToolCall>)
    requires calls != []
    ensures before + NewTools(calls)
            == before + NewTools(calls[..|calls| - 1]) + [Tool(calls[|calls| - 1], Running, None, None)]
  {
  }

  lemma {:induction false} AddCallsEffect(s: State, agent: string, calls: seq<ToolCall>)
    requires agent in s.pending
    ensures var s' := AddCalls(s, agent, calls); var p := s.pending[agent];
      && s'.tools == s.tools + NewTools(calls)
      && s'.pending == s.pending[agent := p.(tools := p.tools + Range(|s.tools|, |s.tools| + |calls|))]
      && s'.bubbles == s.bubbles && s'.last == s.last && s'.root == s.root && s'.sendIds == s.sendIds
  {
    if calls == [] {
      assert s.pending[agent].tools + Range(|s.tools|, |s.tools|) == s.pending[agent].tools;
    } else {
      var n := |calls| - 1;
      AddCallsEffect(s, agent, calls[..n]);
      AddCallEffect(AddCalls(s, agent, calls[..n]), agent, calls[n]);
      NewToolsSnoc(s.tools, calls);
      RangeSnoc(s.pending[agent].tools, |s.tools|, |s.tools| + n);
    }
  }

  function NewBubbles(env: Env, m: Row, reasoning: string, tools: seq<nat>, calls: seq<ToolCall>): seq<Bubble>
    requires m.sender.Agent?
  {
    seq(|calls|, (i: nat) requires i < |calls| => Bubble(CallFace(env, m, calls[i]), reasoning, tools))
  }

  lemma {:induction false} NewBubblesSnoc(env: Env, m: Row, reasoning: string, tools: seq<nat>, calls: seq<ToolCall>,
                                          before: seq<Bubble>)
    requires m.sender.Agent? && calls != []
    ensures before + NewBubbles(env, m, reasoning, tools, calls)
         == before + NewBubbles(env, m, reasoning, tools, calls[..|calls| - 1])
             + [Bubble(CallFace(env, m, calls[|calls| - 1]), reasoning, tools)]
  {
  }

  lemma {:induction false} EmitAllEffect(env: Env, s: State, m: Row, reasoning: string, tools: seq<nat>,
                                         calls: seq<ToolCall>)
    requires m.sender.Agent?
    ensures var s' := EmitAll(env, s, m, reasoning, tools, calls);
      && s'.bubbles == s.bubbles + NewBubbles(env, m, reasoning, tools, calls)
      && s'.last == (if calls == [] then s.last else s.last[Who(m) := |s.bubbles| + |calls| - 1])
      && s' == s.(bubbles := s'.bubbles, last := s'.last)
  {
    if calls != [] {
      EmitAllEffect(env, s, m, reasoning, tools, calls[..|calls| - 1]);
      NewBubblesSnoc(env, m, reasoning, tools, calls, s.bubbles);
    }
  }

  /** Results change entries, never which calls they are for. */
  predicate SameCalls(a: seq<Tool>, b: seq<Tool>) {
    |a| == |b| && forall t :: 0 <= t < |a| ==> a[t].call == b[t].call
  }

  lemma {:induction false} AttachEffect(s: State, results: seq<ToolResult>)
    requires InRange(s)
    ensures SameCalls(Attach(s, results).tools, s.tools) && Attach(s, results) == s.(tools := Attach(s, results).tools)
  {
    if results != [] { AttachEffect(s, results[..|results| - 1]); }
  }

  // ----- An agent's row -----

  /** The pending tools once the row's own calls are in. */
  function ToolsSoFar(s: State, m: Row): seq<nat>
    requires m.sender.Agent?
  {
    PendingOf(s, Who(m)).tools + Range(|s.tools|, |s.tools| + |RealCalls(m)|)
  }

  function Thoughts(m: Row): string {
    m.body.reasoning
  }

  /** The row's reasoning goes back to the bubble already sent. */
  predicate GoesBack(s: State, m: Row)
    requires m.sender.Agent?
  {
    Sends(m) == [] && Who(m) in s.last && ToolsSoFar(s, m) == []
  }

  function PendingAfter(env: Env, s: State, m: Row): Pending
    requires m.sender.Agent?
  {
    var p := PendingOf(s, Who(m));
    if Delivered(env.failed, m) != [] then NOTHING_PENDING
    else Pending(if GoesBack(s, m) then p.reasoning else JoinText(p.reasoning, Thoughts(m)), ToolsSoFar(s, m))
  }

  function BubblesAfter(env: Env, s: State, m: Row): seq<Bubble>
    requires m.sender.Agent? && InRange(s)
  {
    if Delivered(env.failed, m) != [] then
      s.bubbles + NewBubbles(env, m, JoinText(PendingOf(s, Who(m)).reasoning, Thoughts(m)), ToolsSoFar(s, m),
          Delivered(env.failed, m))
    else if GoesBack(s, m) then
      var j := s.last[Who(m)];
      s.bubbles[j := s.bubbles[j].(reasoning := JoinText(s.bubbles[j].reasoning, Thoughts(m)))]
    else s.bubbles
  }

  lemma {:induction false} OpenedEffect(s: State, m: Row)
    requires m.sender.Agent? && InRange(s)
    ensures var s' := Opened(s, m);
      && s'.tools == s.tools + NewTools(RealCalls(m))
      && s'.pending == s.pending[Who(m) := Pending(PendingOf(s, Who(m)).reasoning, ToolsSoFar(s, m))]
      && s'.bubbles == s.bubbles && s'.last == s.last && s'.root == s.root && s'.sendIds == s.sendIds
  {
    AddCallsEffect(s.(pending := s.pending[Who(m) := PendingOf(s, Who(m))]), Who(m), RealCalls(m));
  }

  lemma {:induction false} SameBubble(bubbles: seq<Bubble>, j: nat)
    requires j < |bubbles|
    ensures bubbles[j := bubbles[j].(reasoning := JoinText(bubbles[j].reasoning, ""))] == bubbles
  {
  }

  lemma {:induction false} SendCallsEffect(env: Env, s: State, m: Row)
    requires m.sender.Agent? && Who(m) in s.pending
    ensures var s' := SendCalls(env, s, m); var p := s.pending[Who(m)]; var sent := Delivered(env.failed, m);
      && s' == s.(sendIds := s.sendIds + IdsOf(Sends(m)), bubbles := s'.bubbles, last := s'.last, pending := s'.pending)
      && s'.bubbles == s.bubbles + NewBubbles(env, m, JoinText(p.reasoning, Thoughts(m)), p.tools, sent)
      && s'.last == (if sent == [] then s.last else s.last[Who(m) := |s.bubbles| + |sent| - 1])
      && s'.pending == s.pending[Who(m) :=
           if sent == [] then Pending(JoinText(p.reasoning, Thoughts(m)), p.tools) else NOTHING_PENDING]
  {
    var p := s.pending[Who(m)];
    EmitAllEffect(env, s.(sendIds := s.sendIds + IdsOf(Sends(m))), m, JoinText(p.reasoning, Thoughts(m)), p.tools,
        Delivered(env.failed, m));
  }

  lemma {:induction false} ThinkEffect(s: State, m: Row)
    requires m.sender.Agent? && InRange(s) && Who(m) in s.pending
    ensures var s' := Think(s, m); var p := s.pending[Who(m)]; var back := Who(m) in s.last && p.tools == [];
      && s' == s.(bubbles := s'.bubbles, pending := s'.pending)
      && s'.bubbles == (if back
          then s.bubbles[s.last[Who(m)] :=
                 s.bubbles[s.last[Who(m)]].(reasoning :=
                   JoinText(s.bubbles[s.last[Who(m)]].reasoning, Thoughts(m)))]
          else s.bubbles)
      && s'.pending == s.pending[Who(m) := if back then p else Pending(JoinText(p.reasoning, Thoughts(m)), p.tools)]
  {
    if Who(m) in s.last { SameBubble(s.bubbles, s.last[Who(m)]); }
  }

  /** The whole row, its own calls being pending already. */
  lemma {:induction false} SendStepEffect(env: Env, s: State, m: Row)
    requires m.sender.Agent? && InRange(s) && Who(m) in s.pending
    ensures var s' := SendStep(env, s, m); var p := s.pending[Who(m)]; var sent := Delivered(env.failed, m);
      var back := Sends(m) == [] && Who(m) in s.last && p.tools == [];
      && s' == s.(sendIds := s.sendIds + IdsOf(Sends(m)), bubbles := s'.bubbles, last := s'.last, pending := s'.pending)
      && s'.last == (if sent == [] then s.last else s.last[Who(m) := |s.bubbles| + |sent| - 1])
      && s'.pending == s.pending[Who(m) :=
           if sent != [] then NOTHING_PENDING else if back then p
                                              else Pending(JoinText(p.reasoning, Thoughts(m)), p.tools)]
      && s'.bubbles == (
           if sent != [] then s.bubbles + NewBubbles(env, m, JoinText(p.reasoning, Thoughts(m)), p.tools, sent)
           else if back then
             s.bubbles[s.last[Who(m)] :=
               s.bubbles[s.last[Who(m)]].(reasoning :=
                 JoinText(s.bubbles[s.last[Who(m)]].reasoning, Thoughts(m)))]
           else s.bubbles)
  {
    if Sends(m) == [] {
      assert IdsOf(Sends(m)) == {} && s.sendIds + {} == s.sendIds;
      assert Delivered(env.failed, m) == [];
      ThinkEffect(s, m);
    } else {
      SendCallsEffect(env, s, m);
    }
  }

  lemma {:induction false} Overwrite<K, V>(m: map<K, V>, k: K, v: V, w: V)
    ensures m[k := v][k := w] == m[k := w]
  {
  }

  lemma {:induction false} BeforeResults(env: Env, s: State, m: Row)
    requires m.sender.Agent? && InRange(s)
    ensures var s' := SendStep(env, Opened(s, m), m);
      && s'.tools == s.tools + NewTools(RealCalls(m)) && s'.root == s.root
      && s'.pending == s.pending[Who(m) := PendingAfter(env, s, m)]
      && s'.bubbles == BubblesAfter(env, s, m)
      && s'.last == (if Delivered(env.failed, m) != []
          then s.last[Who(m) := |s.bubbles| + |Delivered(env.failed, m)| - 1] else s.last)
      && s'.sendIds == s.sendIds + IdsOf(Sends(m))
  {
    hide SendStep, NewTools, Delivered, IdsOf, Opened, NewBubbles;
    OpenedEffect(s, m);
    SendStepEffect(env, Opened(s, m), m);
    Overwrite(s.pending, Who(m), Pending(PendingOf(s, Who(m)).reasoning, ToolsSoFar(s, m)), PendingAfter(env, s, m));
  }

  lemma {:induction false} AgentRowEffect(env: Env, s: State, m: Row)
    requires m.sender.Agent? && InRange(s)
    ensures var s' := AgentRow(env, s, m);
      && SameCalls(s'.tools, s.tools + NewTools(RealCalls(m))) && s'.root == s.root
      && s'.pending == s.pending[Who(m) := PendingAfter(env, s, m)]
      && s'.bubbles == BubblesAfter(env, s, m)
      && s'.last == (if Delivered(env.failed, m) != []
          then s.last[Who(m) := |s.bubbles| + |Delivered(env.failed, m)| - 1] else s.last)
      && s'.sendIds == s.sendIds + IdsOf(Sends(m))
  {
    SendStepInRange(env, Opened(s, m), m);
    BeforeResults(env, s, m);
    AttachEffect(SendStep(env, Opened(s, m), m), m.body.toolResults);
  }
}
