/** `foldHistory` on objects: tool entries and bubbles are shared and changed
    in place, and the result is the fold on values. */
module FoldHistory {
  import opened Results
  import opened ChatBody
  import opened FoldModel

  class ToolEntry {
    const call: ToolCall
    var status: Status
    var output: Option<string>
    var isError: Option<bool>
    ghost const number: nat

    constructor (call: ToolCall, ghost number: nat)
      ensures View() == Tool(call, Running, None, None) && this.number == number
    {
      this.call, status, output, isError, this.number := call, Running, None, None, number;
    }

    ghost function View(): Tool
      reads this
    {
      Tool(call, status, output, isError)
    }

    method TakeResult(tr: ToolResult)
      modifies this
      ensures View() == Answered(old(View()), tr)
    {
      output := Some(tr.output);
      isError := tr.isError;
      status := if tr.isError == Some(true) then Failed else Done;
    }
  }

  datatype WireRequest = WireRequest(catalogId: string, details: string)

  /** A bubble's contents, but for its wire requests. */
  datatype Shown = Shown(face: Face, reasoning: string, toolCalls: seq<ToolEntry>)

  class ThreadBubble {
    const face: Face
    const toolCalls: seq<ToolEntry>
    var reasoning: string
    var wireRequests: seq<WireRequest>
    ghost const number: nat

    constructor (face: Face, reasoning: string, toolCalls: seq<ToolEntry>, ghost number: nat)
      ensures View() == Shown(face, reasoning, toolCalls) && wireRequests == [] && this.number == number
    {
      this.face, this.reasoning, this.toolCalls, wireRequests, this.number := face, reasoning, toolCalls, [], number;
    }

    ghost function View(): Shown
      reads this
    {
      Shown(face, reasoning, toolCalls)
    }
  }

  datatype Gathered = Gathered(reasoning: string, toolCalls: seq<ToolEntry>)

  /** The variables of the second pass. */
  datatype Locals = Locals(bubbles: seq<ThreadBubble>, pending: map<string, Gathered>,
                           lastBubble: map<string, ThreadBubble>,
                           index: map<string, ToolEntry>, sendIds: set<string>, root: Option<Root>)

  // ----- The objects and variables stand for a state of the fold on values -----

  /** `objects` are the entries numbered `ids`. */
  ghost predicate Refers(entries: seq<ToolEntry>, objects: seq<ToolEntry>, ids: seq<nat>) {
    |objects| == |ids| && forall i :: 0 <= i < |ids| ==> ids[i] < |entries| && objects[i] == entries[ids[i]]
  }

  ghost predicate Extends<T>(a: seq<T>, b: seq<T>) {
    |a| <= |b| && forall i :: 0 <= i < |a| ==> b[i] == a[i]
  }

  ghost predicate PendingIs(entries: seq<ToolEntry>, pending: map<string, Gathered>, model: map<string, Pending>) {
    pending.Keys == model.Keys
    && forall a :: a in pending
         ==> pending[a].reasoning == model[a].reasoning && Refers(entries, pending[a].toolCalls, model[a].tools)
  }

  /** A map to objects is the map to their numbers. */
  ghost predicate Finds<T>(objects: seq<T>, found: map<string, T>, model: map<string, nat>) {
    found.Keys == model.Keys && forall k :: k in found ==> model[k] < |objects| && found[k] == objects[model[k]]
  }

  ghost predicate ShowsOne(entries: seq<ToolEntry>, shown: Shown, b: Bubble) {
    shown.face == b.face && shown.reasoning == b.reasoning && Refers(entries, shown.toolCalls, b.tools)
  }

  ghost predicate Shows(entries: seq<ToolEntry>, shown: seq<Shown>, bubbles: seq<Bubble>) {
    |shown| == |bubbles| && forall j :: 0 <= j < |shown| ==> ShowsOne(entries, shown[j], bubbles[j])
  }

  /** The entries made so far, with their contents, and the variables. */
  ghost predicate Stands(entries: seq<ToolEntry>, tools: seq<Tool>, loc: Locals, shown: seq<Shown>, m: State) {
    && tools == m.tools && |entries| == |tools| && |loc.bubbles| == |shown|
    && Shows(entries, shown, m.bubbles) && PendingIs(entries, loc.pending, m.pending)
    && Finds(loc.bubbles, loc.lastBubble, m.last) && Finds(entries, loc.index, m.index)
    && loc.sendIds == m.sendIds && loc.root == m.root && InRange(m)
  }

  ghost function ToolsOf(entries: seq<ToolEntry>): (r: seq<Tool>)
    reads entries
    ensures |r| == |entries| && forall t :: 0 <= t < |r| ==> r[t] == entries[t].View()
  {
    if entries == [] then [] else ToolsOf(entries[..|entries| - 1]) + [entries[|entries| - 1].View()]
  }

  ghost function ShownOf(bubbles: seq<ThreadBubble>): (r: seq<Shown>)
    reads bubbles
    ensures |r| == |bubbles| && forall j :: 0 <= j < |r| ==> r[j] == bubbles[j].View()
  {
    if bubbles == [] then [] else ShownOf(bubbles[..|bubbles| - 1]) + [bubbles[|bubbles| - 1].View()]
  }

  lemma {:induction false} ToolsSnoc(entries: seq<ToolEntry>, e: ToolEntry)
    ensures ToolsOf(entries + [e]) == ToolsOf(entries) + [e.View()]
  {
    assert (entries + [e])[..|entries|] == entries;
  }

  lemma {:induction false} ShownSnoc(bubbles: seq<ThreadBubble>, b: ThreadBubble)
    ensures ShownOf(bubbles + [b]) == ShownOf(bubbles) + [b.View()]
  {
    assert (bubbles + [b])[..|bubbles|] == bubbles;
  }

  /** Objects are told apart by their numbers. */
  ghost predicate Numbered(entries: seq<ToolEntry>, bubbles: seq<ThreadBubble>) {
    (forall t :: 0 <= t < |entries| ==> entries[t].number == t)
        && (forall j :: 0 <= j < |bubbles| ==> bubbles[j].number == j)
  }

  ghost predicate Valid(entries: seq<ToolEntry>, loc: Locals, m: State)
    reads entries, loc.bubbles
  {
    Numbered(entries, loc.bubbles) && (forall j :: 0 <= j < |loc.bubbles| ==> loc.bubbles[j].wireRequests == [])
    && Stands(entries, ToolsOf(entries), loc, ShownOf(loc.bubbles), m)
  }

  lemma {:induction false} RefersMore(entries: seq<ToolEntry>, entry: ToolEntry, objects: seq<ToolEntry>, ids: seq<nat>)
    requires Refers(entries, objects, ids)
    ensures Refers(entries + [entry], objects, ids) && Refers(entries + [entry], objects + [entry], ids + [|entries|])
  {
  }

  lemma {:induction false} PendingMore(entries: seq<ToolEntry>, entry: ToolEntry, pending: map<string, Gathered>,
                                       model: map<string, Pending>, a: string)
    requires PendingIs(entries, pending, model) && a in pending
    ensures PendingIs(entries + [entry], pending[a := pending[a].(toolCalls := pending[a].toolCalls + [entry])],
                      model[a := model[a].(tools := model[a].tools + [|entries|])])
  {
    forall b | b in pending
      ensures Refers(entries + [entry], pending[b].toolCalls, model[b].tools)
    {
      RefersMore(entries, entry, pending[b].toolCalls, model[b].tools);
    }
    RefersMore(entries, entry, pending[a].toolCalls, model[a].tools);
  }

  lemma {:induction false} FindsMore<T>(objects: seq<T>, object': T, found: map<string, T>, model: map<string, nat>,
                                        k: string)
    requires Finds(objects, found, model)
    ensures Finds(objects + [object'], found[k := object'], model[k := |objects|])
            && Finds(objects + [object'], found, model)
  {
  }

  lemma {:induction false} ShowsMore(entries: seq<ToolEntry>, entry: ToolEntry, shown: seq<Shown>, bubbles: seq<Bubble>)
    requires Shows(entries, shown, bubbles)
    ensures Shows(entries + [entry], shown, bubbles)
  {
    forall j | 0 <= j < |shown|
      ensures ShowsOne(entries + [entry], shown[j], bubbles[j])
    {
      assert ShowsOne(entries, shown[j], bubbles[j]);
      RefersMore(entries, entry, shown[j].toolCalls, bubbles[j].tools);
    }
  }

  function WithCall(loc: Locals, a: string, tc: ToolCall, entry: ToolEntry): Locals
    requires a in loc.pending
  {
    loc.(pending := loc.pending[a := loc.pending[a].(toolCalls := loc.pending[a].toolCalls + [entry])],
        index := loc.index[tc.id := entry])
  }

  lemma {:induction false} CallStands(entries: seq<ToolEntry>, tools: seq<Tool>, loc: Locals, shown: seq<Shown>,
                                      m: State, a: string, tc: ToolCall, entry: ToolEntry)
    requires Stands(entries, tools, loc, shown, m) && a in loc.pending
    ensures Stands(entries + [entry], tools + [Tool(tc, Running, None, None)], WithCall(loc, a, tc, entry), shown,
            FoldModel.AddCall(m, a, tc))
  {
    PendingMore(entries, entry, loc.pending, m.pending, a);
    FindsMore(entries, entry, loc.index, m.index, tc.id);
    ShowsMore(entries, entry, shown, m.bubbles);
  }

  /** A call gets its entry. */
  method AddCall(loc: Locals, a: string, tc: ToolCall, ghost entries: seq<ToolEntry>, ghost m: State)
    returns (loc': Locals, ghost entries': seq<ToolEntry>)
    requires Valid(entries, loc, m) && a in loc.pending
    ensures Valid(entries', loc', FoldModel.AddCall(m, a, tc)) && a in loc'.pending && loc'.bubbles == loc.bubbles
    ensures Extends(entries, entries') && forall t :: |entries| <= t < |entries'| ==> fresh(entries'[t])
  {
    hide Stands, FoldModel.AddCall, ToolsOf, ShownOf;
    var entry := new ToolEntry(tc, |entries|);
    entries' := entries + [entry];
    loc' := loc.(pending := loc.pending[a := loc.pending[a].(toolCalls := loc.pending[a].toolCalls + [entry])],
                 index := loc.index[tc.id := entry]);
    CallStands(entries, ToolsOf(entries), loc, ShownOf(loc.bubbles), m, a, tc, entry);
    ToolsSnoc(entries, entry);
  }

  method AddCalls(loc0: Locals, a: string, calls: seq<ToolCall>, ghost entries0: seq<ToolEntry>, ghost m: State)
    returns (loc: Locals, ghost entries: seq<ToolEntry>)
    requires Valid(entries0, loc0, m) && a in loc0.pending
    ensures Valid(entries, loc, FoldModel.AddCalls(m, a, calls)) && a in loc.pending && loc.bubbles == loc0.bubbles
    ensures Extends(entries0, entries) && forall t :: |entries0| <= t < |entries| ==> fresh(entries[t])
  {
    hide Valid, FoldModel.AddCall;
    loc, entries := loc0, entries0;
    for i := 0 to |calls|
      invariant Valid(entries, loc, FoldModel.AddCalls(m, a, calls[..i])) && a in loc.pending
                && loc.bubbles == loc0.bubbles
      invariant Extends(entries0, entries) && forall t :: |entries0| <= t < |entries| ==> fresh(entries[t])
    {
      assert calls[..i + 1][..i] == calls[..i];
      loc, entries := AddCall(loc, a, calls[i], entries, FoldModel.AddCalls(m, a, calls[..i]));
    }
    assert calls[..|calls|] == calls;
  }

  // ----- Bubbles -----

  lemma {:induction false} BubbleStands(entries: seq<ToolEntry>, tools: seq<Tool>, loc: Locals, shown: seq<Shown>,
                                        m: State,
                     env: Env, row: Row, reasoning: string, objects: seq<ToolEntry>, ids: seq<nat>, c: ToolCall,
                         b: ThreadBubble)
    requires Stands(entries, tools, loc, shown, m) && Refers(entries, objects, ids) && row.sender.Agent?
    ensures Stands(entries, tools, loc.(bubbles := loc.bubbles + [b], lastBubble := loc.lastBubble[Who(row) := b]),
                   shown + [Shown(CallFace(env, row, c), reasoning, objects)],
                       FoldModel.Emit(env, m, row, reasoning, ids, c))
  {
    FindsMore(loc.bubbles, b, loc.lastBubble, m.last, Who(row));
  }

  method Emit(loc: Locals, env: Env, row: Row, reasoning: string, objects: seq<ToolEntry>, c: ToolCall,
              ghost entries: seq<ToolEntry>, ghost m: State, ghost ids: seq<nat>) returns (loc': Locals)
    requires Valid(entries, loc, m) && Refers(entries, objects, ids) && row.sender.Agent?
    ensures Valid(entries, loc', FoldModel.Emit(env, m, row, reasoning, ids, c)) && loc'.pending == loc.pending
    ensures Extends(loc.bubbles, loc'.bubbles)
            && forall j :: |loc.bubbles| <= j < |loc'.bubbles| ==> fresh(loc'.bubbles[j])
  {
    hide Stands, FoldModel.Emit, CallFace, Refers, ToolsOf, ShownOf;
    var b := new ThreadBubble(CallFace(env, row, c), reasoning, objects, |loc.bubbles|);
    loc' := loc.(bubbles := loc.bubbles + [b], lastBubble := loc.lastBubble[Who(row) := b]);
    BubbleStands(entries, ToolsOf(entries), loc, ShownOf(loc.bubbles), m, env, row, reasoning, objects, ids, c, b);
    ShownSnoc(loc.bubbles, b);
  }

  method EmitAll(loc0: Locals, env: Env, row: Row, reasoning: string, objects: seq<ToolEntry>, calls: seq<ToolCall>,
                 ghost entries: seq<ToolEntry>, ghost m: State, ghost ids: seq<nat>) returns (loc: Locals)
    requires Valid(entries, loc0, m) && Refers(entries, objects, ids) && row.sender.Agent?
    ensures Valid(entries, loc, FoldModel.EmitAll(env, m, row, reasoning, ids, calls)) && loc.pending == loc0.pending
    ensures Extends(loc0.bubbles, loc.bubbles)
            && forall j :: |loc0.bubbles| <= j < |loc.bubbles| ==> fresh(loc.bubbles[j])
  {
    hide Valid, FoldModel.Emit, Refers;
    loc := loc0;
    for i := 0 to |calls|
      invariant Valid(entries, loc, FoldModel.EmitAll(env, m, row, reasoning, ids, calls[..i]))
                && loc.pending == loc0.pending
      invariant Extends(loc0.bubbles, loc.bubbles)
                && forall j :: |loc0.bubbles| <= j < |loc.bubbles| ==> fresh(loc.bubbles[j])
    {
      assert calls[..i + 1][..i] == calls[..i];
      loc := Emit(loc, env, row, reasoning, objects, calls[i], entries,
          FoldModel.EmitAll(env, m, row, reasoning, ids, calls[..i]), ids);
    }
    assert calls[..|calls|] == calls;
  }

  // ----- Results -----

  /** One entry changes, and no other. */
  method TakeAt(ghost entries: seq<ToolEntry>, e: ToolEntry, tr: ToolResult, ghost n: nat)
    requires n < |entries| && entries[n] == e && forall t :: 0 <= t < |entries| ==> entries[t].number == t
    modifies e
    ensures ToolsOf(entries) == old(ToolsOf(entries))[n := Answered(old(e.View()), tr)]
  {
    e.TakeResult(tr);
  }

  lemma {:induction false} AttachStands(entries: seq<ToolEntry>, tools: seq<Tool>, loc: Locals, shown: seq<Shown>,
                                        m: State, tr: ToolResult)
    requires Stands(entries, tools, loc, shown, m)
    ensures InRange(m)
    ensures if tr.callId in loc.sendIds || tr.callId !in loc.index then FoldModel.AttachOne(m, tr) == m
            else && tr.callId in m.index && m.index[tr.callId] < |entries| == |tools|
                 && loc.index[tr.callId] == entries[m.index[tr.callId]]
                 && Stands(entries, tools[m.index[tr.callId] := Answered(tools[m.index[tr.callId]], tr)], loc, shown,
                           FoldModel.AttachOne(m, tr))
  {
    hide Shows, PendingIs;
  }

  method AttachOne(loc: Locals, tr: ToolResult, ghost entries: seq<ToolEntry>, ghost m: State)
    requires Valid(entries, loc, m)
    modifies entries
    ensures Valid(entries, loc, FoldModel.AttachOne(m, tr))
  {
    hide Stands, ToolsOf, ShownOf, FoldModel.AttachOne;
    AttachStands(entries, ToolsOf(entries), loc, ShownOf(loc.bubbles), m, tr);
    if tr.callId in loc.sendIds {
      return;
    }
    if tr.callId !in loc.index {
      return;
    }
    TakeAt(entries, loc.index[tr.callId], tr, m.index[tr.callId]);
  }

  method AttachResults(loc: Locals, results: seq<ToolResult>, ghost entries: seq<ToolEntry>, ghost m: State)
    requires Valid(entries, loc, m)
    modifies entries
    ensures Valid(entries, loc, FoldModel.Attach(m, results))
  {
    for i := 0 to |results|
      invariant Valid(entries, loc, FoldModel.Attach(m, results[..i]))
    {
      assert results[..i + 1][..i] == results[..i];
      AttachOne(loc, results[i], entries, FoldModel.Attach(m, results[..i]));
    }
    assert results[..|results|] == results;
  }

  // ----- Rows -----

  /** One bubble changes, and no other. */
  method JoinAt(ghost bubbles: seq<ThreadBubble>, lb: ThreadBubble, reasoning: string, ghost j: nat)
    requires j < |bubbles| && bubbles[j] == lb && forall k :: 0 <= k < |bubbles| ==> bubbles[k].number == k
    modifies lb`reasoning
    ensures ShownOf(bubbles)
            == old(ShownOf(bubbles))[j := old(lb.View()).(reasoning := JoinText(old(lb.reasoning), reasoning))]
  {
    lb.reasoning := JoinText(lb.reasoning, reasoning);
  }

  /** Reasoning that goes back to the bubble last sent. */
  method Reflect(loc: Locals, a: string, reasoning: string, ghost entries: seq<ToolEntry>, ghost m: State)
    requires Valid(entries, loc, m) && a in loc.lastBubble
    modifies loc.bubbles
    ensures a in m.last && Valid(entries, loc, FoldModel.Reflect(m, a, reasoning))
  {
    hide Stands, ToolsOf, ShownOf, FoldModel.Reflect, JoinText;
    ReflectStands(entries, ToolsOf(entries), loc, ShownOf(loc.bubbles), m, a, reasoning);
    JoinAt(loc.bubbles, loc.lastBubble[a], reasoning, m.last[a]);
  }

  lemma {:induction false} ReflectStands(entries: seq<ToolEntry>, tools: seq<Tool>, loc: Locals, shown: seq<Shown>,
                                         m: State, a: string, reasoning: string)
    requires Stands(entries, tools, loc, shown, m) && a in loc.lastBubble
    ensures a in m.last && m.last[a] < |loc.bubbles| == |shown| && loc.lastBubble[a] == loc.bubbles[m.last[a]]
            && InRange(m)
    ensures var j := m.last[a]; var s := shown[j].(reasoning := JoinText(shown[j].reasoning, reasoning));
      Stands(entries, tools, loc, shown[j := s], FoldModel.Reflect(m, a, reasoning))
  {
    assert ShowsOne(entries, shown[m.last[a]], m.bubbles[m.last[a]]);
  }

  /** Replacing what an agent has pending. */
  lemma {:induction false} PendingStands(entries: seq<ToolEntry>, tools: seq<Tool>, loc: Locals, shown: seq<Shown>,
                                         m: State, a: string, g: Gathered, p: Pending)
    requires Stands(entries, tools, loc, shown, m) && g.reasoning == p.reasoning
             && Refers(entries, g.toolCalls, p.tools)
    ensures Stands(entries, tools, loc.(pending := loc.pending[a := g]), shown, m.(pending := m.pending[a := p]))
  {
  }

  lemma {:induction false} SendIdsStand(entries: seq<ToolEntry>, tools: seq<Tool>, loc: Locals, shown: seq<Shown>,
                                        m: State, ids: set<string>)
    requires Stands(entries, tools, loc, shown, m)
    ensures Stands(entries, tools, loc.(sendIds := loc.sendIds + ids), shown, m.(sendIds := m.sendIds + ids))
  {
  }

  lemma {:induction false} PendingOfStands(entries: seq<ToolEntry>, tools: seq<Tool>, loc: Locals, shown: seq<Shown>,
                                          m: State, a: string)
    requires Stands(entries, tools, loc, shown, m)
    ensures a in loc.pending <==> a in m.pending
    ensures a in loc.pending
            ==> loc.pending[a].reasoning == m.pending[a].reasoning
                && Refers(entries, loc.pending[a].toolCalls, m.pending[a].tools)
  {
  }

  method GetPending(loc0: Locals, a: string, ghost entries: seq<ToolEntry>, ghost m: State) returns (loc: Locals)
    requires Valid(entries, loc0, m)
    ensures Valid(entries, loc, m.(pending := m.pending[a := PendingOf(m, a)])) && a in loc.pending
            && loc.bubbles == loc0.bubbles
  {
    PendingOfStands(entries, ToolsOf(entries), loc0, ShownOf(loc0.bubbles), m, a);
    if a in loc0.pending {
      loc := loc0;
      assert m.pending[a := m.pending[a]] == m.pending;
    } else {
      loc := loc0.(pending := loc0.pending[a := Gathered("", [])]);
      PendingStands(entries, ToolsOf(entries), loc0, ShownOf(loc0.bubbles), m, a, Gathered("", []), NOTHING_PENDING);
    }
  }

  method AddPending(loc0: Locals, a: string, reasoning: string, ghost entries: seq<ToolEntry>, ghost m: State)
    returns (loc: Locals)
    requires Valid(entries, loc0, m) && a in loc0.pending
    ensures Valid(entries, loc, FoldModel.AddPending(m, a, reasoning)) && loc.bubbles == loc0.bubbles
  {
    var p := loc0.pending[a];
    var g := p.(reasoning := JoinText(p.reasoning, reasoning));
    loc := loc0.(pending := loc0.pending[a := g]);
    PendingOfStands(entries, ToolsOf(entries), loc0, ShownOf(loc0.bubbles), m, a);
    PendingStands(entries, ToolsOf(entries), loc0, ShownOf(loc0.bubbles), m, a, g,
                  m.pending[a].(reasoning := JoinText(m.pending[a].reasoning, reasoning)));
  }

  lemma {:induction false} IdsSnoc(calls: seq<ToolCall>, i: nat)
    requires i < |calls|
    ensures IdsOf(calls[..i + 1]) == IdsOf(calls[..i]) + {calls[i].id}
  {
    assert calls[..i + 1] == calls[..i] + [calls[i]];
  }

  method MarkSends(loc0: Locals, sendCalls: seq<ToolCall>, ghost entries: seq<ToolEntry>, ghost m: State)
    returns (loc: Locals)
    requires Valid(entries, loc0, m)
    ensures loc == loc0.(sendIds := loc0.sendIds + IdsOf(sendCalls))
    ensures Valid(entries, loc, m.(sendIds := m.sendIds + IdsOf(sendCalls)))
  {
    hide Stands;
    loc := loc0;
    for i := 0 to |sendCalls|
      invariant loc == loc0.(sendIds := loc0.sendIds + IdsOf(sendCalls[..i]))
    {
      IdsSnoc(sendCalls, i);
      loc := loc.(sendIds := loc.sendIds + {sendCalls[i].id});
    }
    assert sendCalls[..|sendCalls|] == sendCalls;
    SendIdsStand(entries, ToolsOf(entries), loc0, ShownOf(loc0.bubbles), m, IdsOf(sendCalls));
  }

  /** A row with sends. */
  method SendCalls(loc0: Locals, env: Env, row: Row, reasoning: string, ghost entries: seq<ToolEntry>, ghost m: State)
    returns (loc: Locals)
    requires Valid(entries, loc0, m) && row.sender.Agent? && Who(row) in loc0.pending && reasoning == row.body.reasoning
    ensures Valid(entries, loc, FoldModel.SendCalls(env, m, row))
    ensures Extends(loc0.bubbles, loc.bubbles)
            && forall j :: |loc0.bubbles| <= j < |loc.bubbles| ==> fresh(loc.bubbles[j])
  {
    var k := Who(row);
    PendingOfStands(entries, ToolsOf(entries), loc0, ShownOf(loc0.bubbles), m, k);
    loc := MarkSends(loc0, Sends(row), entries, m);
    ghost var marked := m.(sendIds := m.sendIds + IdsOf(Sends(row)));
    var deliveredCalls := Delivered(env.failed, row);
    if |deliveredCalls| > 0 {
      var p := loc.pending[k];
      loc := EmitAll(loc, env, row, JoinText(p.reasoning, reasoning), p.toolCalls, deliveredCalls, entries, marked,
          m.pending[k].tools);
      loc := Clear(loc, k, entries,
          FoldModel.EmitAll(env, marked, row, JoinText(p.reasoning, reasoning), m.pending[k].tools, deliveredCalls));
    } else if reasoning != "" {
      loc := AddPending(loc, k, reasoning, entries, marked);
    }
  }

  method Clear(loc0: Locals, a: string, ghost entries: seq<ToolEntry>, ghost m: State) returns (loc: Locals)
    requires Valid(entries, loc0, m)
    ensures Valid(entries, loc, m.(pending := m.pending[a := NOTHING_PENDING])) && loc.bubbles == loc0.bubbles
  {
    loc := loc0.(pending := loc0.pending[a := Gathered("", [])]);
    PendingStands(entries, ToolsOf(entries), loc0, ShownOf(loc0.bubbles), m, a, Gathered("", []), NOTHING_PENDING);
  }

  /** A row without. */
  method Think(loc0: Locals, row: Row, reasoning: string, ghost entries: seq<ToolEntry>, ghost m: State)
    returns (loc: Locals)
    requires Valid(entries, loc0, m) && row.sender.Agent? && Who(row) in loc0.pending && reasoning == row.body.reasoning
    modifies loc0.bubbles
    ensures Valid(entries, loc, FoldModel.Think(m, row)) && loc.bubbles == loc0.bubbles
  {
    hide Shows, ShownOf, ToolsOf, FoldModel.Reflect, FoldModel.AddPending;
    var k := Who(row);
    loc := loc0;
    if reasoning != "" {
      PendingOfStands(entries, ToolsOf(entries), loc0, ShownOf(loc0.bubbles), m, k);
      if k in loc.lastBubble && |loc.pending[k].toolCalls| == 0 {
        Reflect(loc, k, reasoning, entries, m);
      } else {
        loc := AddPending(loc, k, reasoning, entries, m);
      }
    }
  }

  /** The row's own calls join what the agent has pending. */
  method GatherCalls(loc0: Locals, row: Row, ghost entries0: seq<ToolEntry>, ghost m: State)
    returns (loc: Locals, ghost entries: seq<ToolEntry>)
    requires Valid(entries0, loc0, m) && row.sender.Agent?
    ensures Valid(entries, loc, Opened(m, row)) && Who(row) in loc.pending && loc.bubbles == loc0.bubbles
    ensures Extends(entries0, entries) && forall t :: |entries0| <= t < |entries| ==> fresh(entries[t])
  {
    loc := GetPending(loc0, Who(row), entries0, m);
    loc, entries := AddCalls(loc, Who(row), RealCalls(row), entries0,
        m.(pending := m.pending[Who(row) := PendingOf(m, Who(row))]));
  }

  method SendOrThink(loc0: Locals, env: Env, row: Row, reasoning: string, ghost entries: seq<ToolEntry>, ghost m: State)
    returns (loc: Locals)
    requires Valid(entries, loc0, m) && row.sender.Agent? && Who(row) in loc0.pending && reasoning == row.body.reasoning
    modifies loc0.bubbles
    ensures Valid(entries, loc, SendStep(env, m, row))
    ensures Extends(loc0.bubbles, loc.bubbles)
            && forall j :: |loc0.bubbles| <= j < |loc.bubbles| ==> fresh(loc.bubbles[j])
  {
    if |Sends(row)| > 0 {
      loc := SendCalls(loc0, env, row, reasoning, entries, m);
    } else {
      loc := Think(loc0, row, reasoning, entries, m);
    }
  }

  method AgentRow(loc0: Locals, env: Env, row: Row, ghost entries0: seq<ToolEntry>, ghost m: State)
    returns (loc: Locals, ghost entries: seq<ToolEntry>)
    requires Valid(entries0, loc0, m) && row.sender.Agent?
    modifies entries0, loc0.bubbles
    ensures Valid(entries, loc, FoldModel.AgentRow(env, m, row))
    ensures Extends(entries0, entries) && forall t :: |entries0| <= t < |entries| ==> fresh(entries[t])
    ensures Extends(loc0.bubbles, loc.bubbles)
            && forall j :: |loc0.bubbles| <= j < |loc.bubbles| ==> fresh(loc.bubbles[j])
  {
    loc, entries := GatherCalls(loc0, row, entries0, m);
    loc := SendOrThink(loc, env, row, row.body.reasoning, entries, Opened(m, row));
    AttachResults(loc, row.body.toolResults, entries, SendStep(env, Opened(m, row), row));
  }

  // ----- Human rows -----

  lemma {:induction false} RootStands(entries: seq<ToolEntry>, tools: seq<Tool>, loc: Locals, shown: seq<Shown>,
                                      m: State, root: Root)
    requires Stands(entries, tools, loc, shown, m)
    ensures Stands(entries, tools, loc.(root := Some(root)), shown, m.(root := Some(root)))
  {
  }

  lemma {:induction false} HumanBubbleStands(entries: seq<ToolEntry>, tools: seq<Tool>, loc: Locals, shown: seq<Shown>,
                                          m: State, face: Face, b: ThreadBubble)
    requires Stands(entries, tools, loc, shown, m)
    ensures Stands(entries, tools, loc.(bubbles := loc.bubbles + [b]), shown + [Shown(face, "", [])],
                   m.(bubbles := m.bubbles + [Bubble(face, "", [])]))
  {
    FindsMore(loc.bubbles, b, loc.lastBubble, m.last, "");
  }

  method HumanRow(loc0: Locals, env: Env, row: Row, ghost entries: seq<ToolEntry>, ghost m: State) returns (loc: Locals)
    requires Valid(entries, loc0, m) && row.sender.Human?
    ensures Valid(entries, loc, FoldModel.HumanRow(env, m, row))
    ensures Extends(loc0.bubbles, loc.bubbles)
            && forall j :: |loc0.bubbles| <= j < |loc.bubbles| ==> fresh(loc.bubbles[j])
  {
    loc := loc0;
    if loc.root.None? {
      loc := loc.(root := Some(RootOf(env, row)));
      RootStands(entries, ToolsOf(entries), loc0, ShownOf(loc0.bubbles), m, RootOf(env, row));
    } else if row.body.text != "" || |row.body.attachments| > 0 {
      loc := AddHuman(loc, HumanFace(env, row), entries, m);
    }
  }

  method AddHuman(loc0: Locals, face: Face, ghost entries: seq<ToolEntry>, ghost m: State) returns (loc: Locals)
    requires Valid(entries, loc0, m)
    ensures Valid(entries, loc, m.(bubbles := m.bubbles + [Bubble(face, "", [])]))
    ensures Extends(loc0.bubbles, loc.bubbles)
            && forall j :: |loc0.bubbles| <= j < |loc.bubbles| ==> fresh(loc.bubbles[j])
  {
    hide Stands, ToolsOf, ShownOf;
    var b := new ThreadBubble(face, "", [], |loc0.bubbles|);
    loc := loc0.(bubbles := loc0.bubbles + [b]);
    HumanBubbleStands(entries, ToolsOf(entries), loc0, ShownOf(loc0.bubbles), m, face, b);
    ShownSnoc(loc0.bubbles, b);
  }

  // ----- The passes -----

  function ReadAll(history: seq<Message<Option<Body>>>): seq<Row> {
    if history == [] then [] else ReadAll(history[..|history| - 1]) + [Read(history[|history| - 1])]
  }

  lemma {:induction false} ReadOne(history: seq<Message<Option<Body>>>, i: nat)
    requires i < |history|
    ensures var rows := ReadAll(history[..i + 1]);
      rows != [] && rows[..|rows| - 1] == ReadAll(history[..i]) && rows[|rows| - 1] == Read(history[i])
  {
    assert history[..i + 1][..i] == history[..i];
  }

  method DecodeRow(m: Message<Option<Body>>) returns (row: Row)
    ensures row == Read(m)
  {
    var decoded := DecodeBody(m.body);
    row := Message(m.seqNo, m.posted, m.sender, m.receiver, decoded, m.createdAt, m.requestId, m.clientKey,
        m.displayName, m.avatarUrl);
  }

  method NoteAll(history: seq<Message<Option<Body>>>, roster: seq<Mentionable>, poster: Poster) returns (env: Env)
    ensures env == FirstPass(ReadAll(history), roster, poster)
  {
    env := StartEnv(roster, poster);
    for i := 0 to |history|
      invariant env == NoteRows(StartEnv(roster, poster), ReadAll(history[..i]))
    {
      var row := DecodeRow(history[i]);
      ReadOne(history, i);
      env := NoteRow(env, row);
    }
    assert history[..|history|] == history;
  }

  method OneRow(loc0: Locals, env: Env, row: Row, ghost entries0: seq<ToolEntry>, ghost m: State)
    returns (loc: Locals, ghost entries: seq<ToolEntry>)
    requires Valid(entries0, loc0, m)
    modifies entries0, loc0.bubbles
    ensures Valid(entries, loc, FoldRow(env, m, row))
    ensures Extends(entries0, entries) && forall t :: |entries0| <= t < |entries| ==> fresh(entries[t])
    ensures Extends(loc0.bubbles, loc.bubbles)
            && forall j :: |loc0.bubbles| <= j < |loc.bubbles| ==> fresh(loc.bubbles[j])
  {
    loc, entries := loc0, entries0;
    match row.sender {
      case Agent(_, _) =>
        loc, entries := AgentRow(loc0, env, row, entries0, m);
      case System =>
        AttachResults(loc0, row.body.toolResults, entries0, m);
      case Human(_, _) =>
        loc := HumanRow(loc0, env, row, entries0, m);
    }
  }

  lemma {:induction false} FoldNext(env: Env, history: seq<Message<Option<Body>>>, i: nat, row: Row)
    requires i < |history| && row == Read(history[i])
    ensures Fold(env, ReadAll(history[..i + 1])) == FoldRow(env, Fold(env, ReadAll(history[..i])), row)
  {
    ReadOne(history, i);
  }

  /** The row at `i`, folded after those before it. */
  method NextRow(history: seq<Message<Option<Body>>>, i: nat, env: Env, loc0: Locals, ghost entries0: seq<ToolEntry>)
    returns (loc: Locals, ghost entries: seq<ToolEntry>)
    requires i < |history| && Valid(entries0, loc0, Fold(env, ReadAll(history[..i])))
    modifies entries0, loc0.bubbles
    ensures Valid(entries, loc, Fold(env, ReadAll(history[..i + 1])))
    ensures Extends(entries0, entries) && forall t :: |entries0| <= t < |entries| ==> fresh(entries[t])
    ensures Extends(loc0.bubbles, loc.bubbles)
            && forall j :: |loc0.bubbles| <= j < |loc.bubbles| ==> fresh(loc.bubbles[j])
  {
    var row := DecodeRow(history[i]);
    loc, entries := OneRow(loc0, env, row, entries0, Fold(env, ReadAll(history[..i])));
    FoldNext(env, history, i, row);
  }

  lemma {:induction false} NothingYet(env: Env)
    ensures Valid([], Locals([], map[], map[], map[], {}, None), Fold(env, ReadAll([])))
  {
  }

  method FoldRows(history: seq<Message<Option<Body>>>, env: Env) returns (loc: Locals, ghost entries: seq<ToolEntry>)
    ensures Valid(entries, loc, Fold(env, ReadAll(history)))
    ensures fresh(entries) && fresh(loc.bubbles)
  {
    hide Valid, Fold;
    loc, entries := Locals([], map[], map[], map[], {}, None), [];
    NothingYet(env);
    assert history[..0] == [];
    for i := 0 to |history|
      invariant Valid(entries, loc, Fold(env, ReadAll(history[..i])))
      invariant fresh(entries) && fresh(loc.bubbles)
    {
      loc, entries := NextRow(history, i, env, loc, entries);
    }
    assert history[..|history|] == history;
  }

  // ----- Inline cards -----

  predicate HasCatalog(requests: seq<WireRequest>, catalogId: string) {
    exists k :: 0 <= k < |requests| && requests[k].catalogId == catalogId
  }

  /** The wire request an entry's output carries. */
  function RequestIn(parse: string -> Option<WireRequest>, t: Tool): Option<WireRequest> {
    if t.call.name != "request_user_wire_mcp" || t.status != Done || t.output.None? || t.output.value == "" then None
    else parse(t.output.value)
  }

  function Requests(parse: string -> Option<WireRequest>, tools: seq<Tool>): seq<WireRequest> {
    if tools == [] then []
    else
      var before, req := Requests(parse, tools[..|tools| - 1]), RequestIn(parse, tools[|tools| - 1]);
      if req.None? || HasCatalog(before, req.value.catalogId) then before else before + [req.value]
  }

  /** Entry `t` is the first to ask for its catalog entry. */
  ghost predicate FirstFor(parse: string -> Option<WireRequest>, tools: seq<Tool>, t: nat, w: WireRequest) {
    t < |tools| && RequestIn(parse, tools[t]) == Some(w)
    && forall u :: 0 <= u < t && RequestIn(parse, tools[u]).Some?
         ==> RequestIn(parse, tools[u]).value.catalogId != w.catalogId
  }

  ghost predicate FoundFirst(parse: string -> Option<WireRequest>, tools: seq<Tool>, n: nat, w: WireRequest) {
    exists t: nat :: t < n && FirstFor(parse, tools, t, w)
  }

  ghost predicate Asked(parse: string -> Option<WireRequest>, tools: seq<Tool>, t: nat, r: seq<WireRequest>)
    requires t < |tools|
  {
    RequestIn(parse, tools[t]).Some? ==> HasCatalog(r, RequestIn(parse, tools[t]).value.catalogId)
  }

  /** One card per catalog entry asked for by the first `n` entries, the first one. */
  ghost predicate FirstCards(parse: string -> Option<WireRequest>, tools: seq<Tool>, n: nat, r: seq<WireRequest>)
    requires n <= |tools|
  {
    && Different(r)
    && (forall k :: 0 <= k < |r| ==> FoundFirst(parse, tools, n, r[k]))
    && (forall t :: 0 <= t < n ==> Asked(parse, tools, t, r))
  }

  lemma {:induction false} RequestsAreFirst(parse: string -> Option<WireRequest>, tools: seq<Tool>, n: nat)
    requires n <= |tools|
    ensures FirstCards(parse, tools, n, Requests(parse, tools[..n]))
    decreases n
  {
    if n > 0 {
      RequestsAreFirst(parse, tools, n - 1);
      assert tools[..n][..n - 1] == tools[..n - 1];
      RequestStep(parse, tools, n, Requests(parse, tools[..n - 1]));
    }
  }

  ghost predicate Different(r: seq<WireRequest>) {
    forall k, l :: 0 <= k < l < |r| ==> r[k].catalogId != r[l].catalogId
  }

  lemma {:induction false} FoundStays(parse: string -> Option<WireRequest>, tools: seq<Tool>, n: nat, w: WireRequest)
    requires 0 < n && FoundFirst(parse, tools, n - 1, w)
    ensures FoundFirst(parse, tools, n, w)
  {
    var t: nat :| t < n - 1 && FirstFor(parse, tools, t, w);
    assert t < n;
  }

  lemma {:induction false} SameCards(parse: string -> Option<WireRequest>, tools: seq<Tool>, n: nat,
                                     r: seq<WireRequest>)
    requires 0 < n <= |tools| && FirstCards(parse, tools, n - 1, r) && Asked(parse, tools, n - 1, r)
    ensures FirstCards(parse, tools, n, r)
  {
    forall k | 0 <= k < |r|
      ensures FoundFirst(parse, tools, n, r[k])
    {
      FoundStays(parse, tools, n, r[k]);
    }
  }

  lemma {:induction false} NewIsFirst(parse: string -> Option<WireRequest>, tools: seq<Tool>, n: nat,
                                      r: seq<WireRequest>, w: WireRequest)
    requires 0 < n <= |tools| && RequestIn(parse, tools[n - 1]) == Some(w) && !HasCatalog(r, w.catalogId)
    requires forall t :: 0 <= t < n - 1 ==> Asked(parse, tools, t, r)
    ensures FoundFirst(parse, tools, n, w)
  {
    forall u | 0 <= u < n - 1 && RequestIn(parse, tools[u]).Some?
      ensures RequestIn(parse, tools[u]).value.catalogId != w.catalogId
    {
      assert Asked(parse, tools, u, r);
    }
    assert FirstFor(parse, tools, n - 1, w);
  }

  lemma {:induction false} DifferentMore(r: seq<WireRequest>, w: WireRequest)
    requires Different(r) && !HasCatalog(r, w.catalogId)
    ensures Different(r + [w])
  {
  }

  lemma {:induction false} NewCard(parse: string -> Option<WireRequest>, tools: seq<Tool>, n: nat, r: seq<WireRequest>,
                                   w: WireRequest)
    requires 0 < n <= |tools| && RequestIn(parse, tools[n - 1]) == Some(w) && !HasCatalog(r, w.catalogId)
    requires FirstCards(parse, tools, n - 1, r)
    ensures FirstCards(parse, tools, n, r + [w])
  {
    DifferentMore(r, w);
    NewIsFirst(parse, tools, n, r, w);
    forall k | 0 <= k < |r + [w]|
      ensures FoundFirst(parse, tools, n, (r + [w])[k])
    {
      if k < |r| { FoundStays(parse, tools, n, r[k]); }
    }
    forall t | 0 <= t < n
      ensures Asked(parse, tools, t, r + [w])
    {
      if t < n - 1 {
        assert Asked(parse, tools, t, r);
        if RequestIn(parse, tools[t]).Some? { StillThere(r, w, RequestIn(parse, tools[t]).value.catalogId); }
      } else {
        assert (r + [w])[|r|] == w;
      }
    }
  }

  lemma {:induction false} RequestStep(parse: string -> Option<WireRequest>, tools: seq<Tool>, n: nat,
                                       before: seq<WireRequest>)
    requires 0 < n <= |tools| && FirstCards(parse, tools, n - 1, before)
    ensures var req := RequestIn(parse, tools[n - 1]);
      FirstCards(parse, tools, n, if req.None? || HasCatalog(before, req.value.catalogId) then before
                                  else before + [req.value])
  {
    var req := RequestIn(parse, tools[n - 1]);
    if req.Some? && !HasCatalog(before, req.value.catalogId) {
      NewCard(parse, tools, n, before, req.value);
    } else {
      SameCards(parse, tools, n, before);
    }
  }

  lemma {:induction false} StillThere(before: seq<WireRequest>, w: WireRequest, catalogId: string)
    requires HasCatalog(before, catalogId)
    ensures HasCatalog(before + [w], catalogId)
  {
    var k :| 0 <= k < |before| && before[k].catalogId == catalogId;
    assert (before + [w])[k] == before[k];
  }

  method FillRequests(b: ThreadBubble, parse: string -> Option<WireRequest>)
    requires b.wireRequests == []
    modifies b`wireRequests
    ensures Filled(b, parse)
  {
    if b.face.human {
      return;
    }
    for i := 0 to |b.toolCalls|
      invariant b.wireRequests == Requests(parse, ToolsOf(b.toolCalls)[..i])
    {
      var tc := b.toolCalls[i];
      ghost var tools := ToolsOf(b.toolCalls);
      assert tools[..i + 1][..i] == tools[..i] && tools[..i + 1][i] == tc.View();
      if tc.call.name != WIRE_MCP_TOOL_NAME {
        continue;
      }
      if tc.status != Done || tc.output.None? || tc.output.value == "" {
        continue;
      }
      var req := parse(tc.output.value);
      if req.None? {
        continue;
      }
      if HasCatalog(b.wireRequests, req.value.catalogId) {
        continue;
      }
      b.wireRequests := b.wireRequests + [req.value];
    }
    assert ToolsOf(b.toolCalls)[..|b.toolCalls|] == ToolsOf(b.toolCalls);
  }

  ghost predicate Filled(b: ThreadBubble, parse: string -> Option<WireRequest>)
    reads b, b.toolCalls
  {
    b.wireRequests == if b.face.human then [] else Requests(parse, ToolsOf(b.toolCalls))
  }

  method FillAll(bubbles: seq<ThreadBubble>, parse: string -> Option<WireRequest>)
    requires forall j :: 0 <= j < |bubbles| ==> bubbles[j].number == j && bubbles[j].wireRequests == []
    modifies bubbles
    ensures ShownOf(bubbles) == old(ShownOf(bubbles))
    ensures forall j :: 0 <= j < |bubbles| ==> Filled(bubbles[j], parse)
  {
    hide Filled;
    for i := 0 to |bubbles|
      invariant forall j :: 0 <= j < |bubbles| ==> bubbles[j].View() == old(bubbles[j].View())
      invariant forall j :: 0 <= j < i ==> Filled(bubbles[j], parse)
      invariant forall j :: i <= j < |bubbles| ==> bubbles[j].wireRequests == []
    {
      FillRequests(bubbles[i], parse);
    }
  }

  /** No object is there twice. */
  ghost predicate Distinct<T>(objects: seq<T>) {
    forall t, u :: 0 <= t < u < |objects| ==> objects[t] != objects[u]
  }

  /** A bubble object shows bubble `v` of the fold, its entries being those numbered. */
  ghost predicate Renders(entries: seq<ToolEntry>, b: ThreadBubble, v: Bubble, parse: string -> Option<WireRequest>)
    reads b, b.toolCalls
  {
    ShowsOne(entries, b.View(), v) && Filled(b, parse)
  }

  method FoldHistory(history: seq<Message<Option<Body>>>, roster: seq<Mentionable>, poster: Poster,
                     parse: string -> Option<WireRequest>)
    returns (root: Option<Root>, bubbles: seq<ThreadBubble>, ghost entries: seq<ToolEntry>)
    ensures var rows := ReadAll(history); var m := Fold(FirstPass(rows, roster, poster), rows);
      && root == m.root && ToolsOf(entries) == m.tools
      && |bubbles| == |m.bubbles|
          && forall j :: 0 <= j < |bubbles| ==> Renders(entries, bubbles[j], m.bubbles[j], parse)
    ensures Distinct(entries) && Distinct(bubbles)
  {
    hide Shows, PendingIs, Finds, Fold, Filled, Renders, ToolsOf, ShownOf, ReadAll, NoteRows;
    var env := NoteAll(history, roster, poster);
    var loc;
    loc, entries := FoldRows(history, env);
    root, bubbles := loc.root, loc.bubbles;
    FillAll(bubbles, parse);
    AllRendered(entries, bubbles, Fold(env, ReadAll(history)).bubbles, parse);
  }

  lemma {:induction false} OneRendered(entries: seq<ToolEntry>, bubbles: seq<ThreadBubble>, v: seq<Bubble>,
                                       parse: string -> Option<WireRequest>, j: nat)
    requires j < |bubbles| && Shows(entries, ShownOf(bubbles), v) && Filled(bubbles[j], parse)
    ensures |bubbles| == |v| && Renders(entries, bubbles[j], v[j], parse)
  {
    assert ShowsOne(entries, ShownOf(bubbles)[j], v[j]);
  }

  lemma {:induction false} AllRendered(entries: seq<ToolEntry>, bubbles: seq<ThreadBubble>, v: seq<Bubble>,
                                       parse: string -> Option<WireRequest>)
    requires Shows(entries, ShownOf(bubbles), v) && forall j :: 0 <= j < |bubbles| ==> Filled(bubbles[j], parse)
    ensures |bubbles| == |v| && forall j :: 0 <= j < |bubbles| ==> Renders(entries, bubbles[j], v[j], parse)
  {
    forall j | 0 <= j < |bubbles|
      ensures Renders(entries, bubbles[j], v[j], parse)
    {
      OneRendered(entries, bubbles, v, parse, j);
    }
  }
}
