/** The fold of a thread's rows into bubbles, on values: tool entries are
    numbered in the order they are created, and bubbles refer to them by
    number, so a later result shows in every bubble that holds the entry. */
module FoldModel {
  import opened Results
  import opened ChatBody
  import Mentions

  const SEND_MESSAGE := "send_message"
  const WIRE_MCP_TOOL_NAME := "request_user_wire_mcp"

  datatype Participant =
    | Human(colleague: string, user: Option<string>)
    | Agent(colleague: string, agent: Option<string>)
    | System

  /** A row of the thread; `B` is its body, as sent or decoded. */
  datatype Message<B> = Message(seqNo: nat, posted: bool, sender: Participant, receiver: Option<Participant>, body: B,
                                createdAt: int, requestId: Option<string>, clientKey: Option<string>,
                                displayName: Option<string>, avatarUrl: Option<string>)

  type Row = Message<Decoded>

  function Read(m: Message<Option<Body>>): Row {
    Message(m.seqNo, m.posted, m.sender, m.receiver, Decode(m.body), m.createdAt, m.requestId, m.clientKey,
        m.displayName, m.avatarUrl)
  }

  datatype Mentionable = Mentionable(isAgent: bool, id: string, name: string, colleague: Option<string>)
  datatype Poster = Poster(name: string, id: string, avatarUrl: Option<string>)

  /** What the first pass over the history collects. */
  datatype Env = Env(failed: set<string>, names: map<string, string>, receivers: map<string, string>,
                     agents: map<string, Mentionable>, humans: map<string, Mentionable>, poster: Poster)

  datatype Status = Running | Done | Failed
  datatype Tool = Tool(call: ToolCall, status: Status, output: Option<string>, isError: Option<bool>)

  /** The part of a bubble that never changes. */
  datatype Face = Face(human: bool, key: string, requestId: string, clientKey: Option<string>,
                       agentId: Option<string>, agentName: Option<string>,
                       humanName: Option<string>, humanId: Option<string>, humanAvatar: Option<string>,
                       ts: int, text: string, attachments: seq<Attachment>)

  datatype Bubble = Bubble(face: Face, reasoning: string, tools: seq<nat>)
  datatype Pending = Pending(reasoning: string, tools: seq<nat>)
  datatype Root = Root(name: string, id: string, avatarUrl: Option<string>, ts: int, text: string,
                       attachments: seq<Attachment>)

  datatype State = State(tools: seq<Tool>, bubbles: seq<Bubble>, pending: map<string, Pending>, last: map<string, nat>,
                         index: map<string, nat>, sendIds: set<string>, root: Option<Root>)

  const NOTHING_PENDING := Pending("", [])
  const START := State([], [], map[], map[], map[], {}, None)

  // ----- Small functions -----

  function Or<T>(a: Option<T>, b: T): T {
    if a.Some? then a.value else b
  }

  function JoinText(a: string, b: string): string {
    if a == "" then b else if b == "" then a else a + "\n" + b
  }

  lemma {:induction false} JoinTextLaws(a: string, b: string, c: string)
    ensures JoinText(JoinText(a, b), c) == JoinText(a, JoinText(b, c))
    ensures JoinText("", a) == a == JoinText(a, "")
    ensures JoinText(a, b) == "" <==> a == "" && b == ""
    ensures a != "" && b != "" ==> JoinText(a, b) == a + "\n" + b
  {
    if a != "" && b != "" && c != "" {
      assert a + "\n" + b + "\n" + c == a + "\n" + (b + "\n" + c);
    }
  }

  function PrefixName(content: string, name: Option<string>): string {
    if name.None? || name.value == "" || "@" + name.value <= content then content else "@" + name.value + " " + content
  }

  /** The character may follow a mention. */
  predicate IsStop(c: char) {
    c as int < 0x1_0000 && Mentions.IsStop(c as int as Mentions.CodeUnit)
  }

  /** The text opens with a mention of the name that ends where the name does. */
  predicate Mentioned(text: string, name: string) {
    "@" + name <= text && (|text| == |name| + 1 || IsStop(text[|name| + 1]))
  }

  /** A named message opens with a mention of the name just when its content
      does, or does not begin with the tag at all: a tag that runs on into a
      longer word is taken for one. The tag is added once, before the content. */
  lemma {:induction false} PrefixNameOnce(content: string, name: string)
    requires name != ""
    ensures var said := PrefixName(content, Some(name));
      && (Mentioned(said, name) <==> Mentioned(content, name) || !("@" + name <= content))
      && "@" + name <= said && PrefixName(said, Some(name)) == said
      && (said == content || (|said| == |name| + 2 + |content| && said[|name| + 2..] == content))
  {
    var tag := "@" + name;
    if !(tag <= content) {
      var said := PrefixName(content, Some(name));
      assert said == tag + (" " + content);
      assert said[|tag|] == ' ' && said[|tag| + 1..] == content;
    }
  }

  /** A message to Bob that opens with Bobby's tag does not mention Bob. */
  lemma {:induction false} LongerNameHidesTag()
    ensures !Mentioned(PrefixName("@Bobby, look", Some("Bob")), "Bob")
  {
    assert "@Bobby, look"[..4] == "@" + "Bob";
    assert "@" + "Bob" <= "@Bobby, look";
    assert "@Bobby, look"[4] == 'b' && 'b' as int == 0x62;
  }

  function Digits(n: nat): string {
    if n < 10 then [('0' as int + n) as char] else Digits(n / 10) + [('0' as int + n % 10) as char]
  }

  function Lookup(m: map<string, string>, k: string): Option<string> {
    if k in m then Some(m[k]) else None
  }

  function NameIn(m: map<string, Mentionable>, id: Option<string>): Option<string> {
    if id.Some? && id.value in m then Some(m[id.value].name) else None
  }

  function ParticipantName(p: Option<Participant>, agents: map<string, Mentionable>,
                           humans: map<string, Mentionable>): Option<string> {
    match p
    case Some(Agent(_, agent)) => NameIn(agents, agent)
    case Some(Human(_, user)) => NameIn(humans, user)
    case _ => None
  }

  // ----- The calls of a row -----

  function Filter<T>(s: seq<T>, keep: T -> bool): seq<T> {
    if s == [] then [] else (if keep(s[0]) then [s[0]] else []) + Filter(s[1..], keep)
  }

  predicate IsSend(c: ToolCall) { c.name == SEND_MESSAGE }

  predicate IsReal(c: ToolCall) { c.name != SEND_MESSAGE }

  function Sends(m: Row): seq<ToolCall> {
    Filter(m.body.toolCalls, IsSend)
  }

  function RealCalls(m: Row): seq<ToolCall> {
    Filter(m.body.toolCalls, IsReal)
  }

  function NotIn(failed: set<string>): ToolCall -> bool {
    (c: ToolCall) => c.id !in failed
  }

  /** The sends of a row that no error result answers. */
  function Delivered(failed: set<string>, m: Row): seq<ToolCall> {
    Filter(Sends(m), NotIn(failed))
  }

  // ----- First pass -----

  function ById(roster: seq<Mentionable>, agents: bool): map<string, Mentionable> {
    if roster == [] then map[]
    else
      var m := roster[|roster| - 1];
      var before := ById(roster[..|roster| - 1], agents);
      if m.isAgent == agents then before[m.id := m] else before
  }

  function RosterNames(roster: seq<Mentionable>): map<string, string> {
    if roster == [] then map[]
    else
      var m := roster[|roster| - 1];
      var before := RosterNames(roster[..|roster| - 1]);
      if m.colleague.Some? && m.colleague.value != "" then before[m.colleague.value := m.name] else before
  }

  function NoteColleague(env: Env, p: Option<Participant>, humanName: Option<string>): Env {
    if p.None? || p.value.System? then env
    else
      var name := if p.value.Agent? then NameIn(env.agents, p.value.agent)
                  else if humanName.Some? then humanName else NameIn(env.humans, p.value.user);
      if name.Some? && name.value != "" then env.(names := env.names[p.value.colleague := name.value]) else env
  }

  function RecvKey(requestId: Option<string>, content: string): string {
    Or(requestId, "") + " " + content
  }

  function ErrorIds(results: seq<ToolResult>): set<string> {
    set r | r in results && r.isError == Some(true) :: r.callId
  }

  /** The row is the posted form of an agent's message to someone. */
  predicate PostedDelivery(m: Row) {
    m.posted && m.sender.Agent? && m.receiver.Some? && !m.receiver.value.System?
  }

  function NoteRow(env: Env, m: Row): Env {
    var named := NoteColleague(NoteColleague(env, Some(m.sender), m.displayName), m.receiver, None);
    var d := m.body;
    named.(failed := named.failed + ErrorIds(d.toolResults),
           receivers := if PostedDelivery(m)
               then named.receivers[RecvKey(m.requestId, d.text) := m.receiver.value.colleague]
                        else named.receivers)
  }

  function NoteRows(env: Env, rows: seq<Row>): Env {
    if rows == [] then env else NoteRow(NoteRows(env, rows[..|rows| - 1]), rows[|rows| - 1])
  }

  function StartEnv(roster: seq<Mentionable>, poster: Poster): Env {
    Env({}, RosterNames(roster), map[], ById(roster, true), ById(roster, false), poster)
  }

  function FirstPass(history: seq<Row>, roster: seq<Mentionable>, poster: Poster): Env {
    NoteRows(StartEnv(roster, poster), history)
  }

  ghost predicate ErrorIn(m: Row, id: string) {
    exists k :: 0 <= k < |m.body.toolResults| && m.body.toolResults[k].callId == id
                && m.body.toolResults[k].isError == Some(true)
  }

  /** Some row of the history answers the call with an error. */
  ghost predicate FailedIn(rows: seq<Row>, id: string) {
    exists i :: 0 <= i < |rows| && ErrorIn(rows[i], id)
  }

  lemma {:induction false} ErrorIdsAre(m: Row, id: string)
    ensures id in ErrorIds(m.body.toolResults) <==> ErrorIn(m, id)
  {
    if id in ErrorIds(m.body.toolResults) {
      var r :| r in m.body.toolResults && r.isError == Some(true) && r.callId == id;
    }
  }

  lemma {:induction false} FailedExactly(env: Env, rows: seq<Row>, id: string)
    requires env.failed == {}
    ensures id in NoteRows(env, rows).failed <==> FailedIn(rows, id)
  {
    if rows != [] {
      var n := |rows| - 1;
      FailedExactly(env, rows[..n], id);
      ErrorIdsAre(rows[n], id);
      assert FailedIn(rows[..n], id) ==> FailedIn(rows, id);
      if FailedIn(rows, id) && !ErrorIn(rows[n], id) {
        var i :| 0 <= i < |rows| && ErrorIn(rows[i], id);
        assert rows[..n][i] == rows[i];
      }
    }
  }

  /** A reply is tagged from the last posted row that carries its request and text. */
  lemma {:induction false} ReceiverIsLastPosted(env: Env, rows: seq<Row>, n: nat, key: string)
    requires env.receivers == map[] && n <= |rows|
    ensures var got := Lookup(NoteRows(env, rows[..n]).receivers, key);
      if got.None? then forall i :: 0 <= i < n ==> !Posts(rows[i], key)
      else exists i :: 0 <= i < n && Posts(rows[i], key) && got.value == rows[i].receiver.value.colleague
                       && forall j :: i < j < n ==> !Posts(rows[j], key)
  {
    if n > 0 {
      ReceiverIsLastPosted(env, rows, n - 1, key);
      assert rows[..n][..n - 1] == rows[..n - 1];
      NoteRowReceivers(NoteRows(env, rows[..n - 1]), rows[n - 1], key);
    }
  }

  lemma {:induction false} NoteRowReceivers(env: Env, m: Row, key: string)
    ensures Lookup(NoteRow(env, m).receivers, key)
         == if Posts(m, key) then Some(m.receiver.value.colleague) else Lookup(env.receivers, key)
  {
  }

  /** The joined key tells the request and the text apart when no request id has a space. */
  lemma {:induction false} KeyTellsApart(r1: Option<string>, c1: string, r2: Option<string>, c2: string)
    requires ' ' !in Or(r1, "") && ' ' !in Or(r2, "")
    ensures RecvKey(r1, c1) == RecvKey(r2, c2) <==> Or(r1, "") == Or(r2, "") && c1 == c2
  {
    var a, b := Or(r1, ""), Or(r2, "");
    if RecvKey(r1, c1) == RecvKey(r2, c2) {
      SameLength(a, b, c1, c2, ' ');
      assert a == RecvKey(r1, c1)[..|a|] && c1 == RecvKey(r1, c1)[|a| + 1..];
      assert b == RecvKey(r2, c2)[..|b|] && c2 == RecvKey(r2, c2)[|b| + 1..];
    }
  }

  lemma {:induction false} SameLength(a: string, b: string, c1: string, c2: string, mark: char)
    requires mark !in a && mark !in b && a + [mark] + c1 == b + [mark] + c2
    ensures |a| == |b|
  {
    assert forall i :: 0 <= i < |a| ==> (a + [mark] + c1)[i] == a[i] && a[i] in a;
    assert forall i :: 0 <= i < |b| ==> (b + [mark] + c2)[i] == b[i] && b[i] in b;
    assert (a + [mark] + c1)[|a|] == mark && (b + [mark] + c2)[|b|] == mark;
  }

  /** With a space in a request id, two requests can share a key. */
  lemma {:induction false} KeysCanClash()
    ensures RecvKey(Some("a"), "b c") == RecvKey(Some("a b"), "c")
  {
    assert "a" + " " + "b c" == "a b" + " " + "c";
  }

  predicate Posts(m: Row, key: string) {
    PostedDelivery(m) && RecvKey(m.requestId, m.body.text) == key
  }

  // ----- Second pass -----

  /** The agent whose accumulator a row works on. */
  function Who(m: Row): string
    requires m.sender.Agent?
  {
    Or(m.sender.agent, "")
  }

  function PendingOf(s: State, agent: string): Pending {
    if agent in s.pending then s.pending[agent] else NOTHING_PENDING
  }

  function AddCall(s: State, agent: string, c: ToolCall): State {
    var p := PendingOf(s, agent);
    s.(tools := s.tools + [Tool(c, Running, None, None)],
       pending := s.pending[agent := p.(tools := p.tools + [|s.tools|])],
       index := s.index[c.id := |s.tools|])
  }

  function AddCalls(s: State, agent: string, calls: seq<ToolCall>): State {
    if calls == [] then s else AddCall(AddCalls(s, agent, calls[..|calls| - 1]), agent, calls[|calls| - 1])
  }

  /** An agent's bubble, from its row and its `send_message` call. */
  function CallFace(env: Env, m: Row, c: ToolCall): Face
    requires m.sender.Agent?
  {
    var content := Or(c.input.content, "");
    var colleague := Or(Lookup(env.receivers, RecvKey(m.requestId, content)), "");
    var receiver := if colleague == "" then None else Lookup(env.names, colleague);
    Face(false, "h:" + Digits(m.seqNo) + ":" + c.id, Or(m.requestId, "seq:" + Digits(m.seqNo)), None,
         m.sender.agent, if m.sender.agent == Some("") then None else NameIn(env.agents, m.sender.agent),
         None, None, None, m.createdAt, PrefixName(content, receiver), [])
  }

  function Emit(env: Env, s: State, m: Row, reasoning: string, tools: seq<nat>, c: ToolCall): State
    requires m.sender.Agent?
  {
    s.(bubbles := s.bubbles + [Bubble(CallFace(env, m, c), reasoning, tools)], last := s.last[Who(m) := |s.bubbles|])
  }

  function EmitAll(env: Env, s: State, m: Row, reasoning: string, tools: seq<nat>, calls: seq<ToolCall>): State
    requires m.sender.Agent?
  {
    if calls == [] then s
    else Emit(env, EmitAll(env, s, m, reasoning, tools, calls[..|calls| - 1]), m, reasoning, tools, calls[|calls| - 1])
  }

  function AddPending(s: State, agent: string, reasoning: string): State {
    var p := PendingOf(s, agent);
    s.(pending := s.pending[agent := p.(reasoning := JoinText(p.reasoning, reasoning))])
  }

  /** Every number the state holds is in range. */
  ghost predicate InRange(s: State) {
    && (forall a :: a in s.last ==> s.last[a] < |s.bubbles|)
    && (forall id :: id in s.index ==> s.index[id] < |s.tools|)
  }

  function Reflect(s: State, agent: string, reasoning: string): State
    requires agent in s.last && s.last[agent] < |s.bubbles|
  {
    var j := s.last[agent];
    s.(bubbles := s.bubbles[j := s.bubbles[j].(reasoning := JoinText(s.bubbles[j].reasoning, reasoning))])
  }

  function IdsOf(calls: seq<ToolCall>): set<string> {
    set c | c in calls :: c.id
  }

  /** A row with sends: the delivered ones become bubbles and take what is pending. */
  function SendCalls(env: Env, s: State, m: Row): State
    requires m.sender.Agent?
  {
    var d, p := m.body, PendingOf(s, Who(m));
    var marked := s.(sendIds := s.sendIds + IdsOf(Sends(m)));
    if Delivered(env.failed, m) != [] then
      var sent := EmitAll(env, marked, m, JoinText(p.reasoning, d.reasoning), p.tools, Delivered(env.failed, m));
      sent.(pending := sent.pending[Who(m) := NOTHING_PENDING])
    else if d.reasoning != "" then AddPending(marked, Who(m), d.reasoning)
    else marked
  }

  /** A row without: reasoning alone goes back to the last bubble, or waits. */
  function Think(s: State, m: Row): State
    requires m.sender.Agent? && InRange(s)
  {
    var reasoning := m.body.reasoning;
    if reasoning == "" then s
    else if Who(m) in s.last && PendingOf(s, Who(m)).tools == [] then Reflect(s, Who(m), reasoning)
    else AddPending(s, Who(m), reasoning)
  }

  /** The sends and the reasoning of an agent's row, its own calls being pending already. */
  function SendStep(env: Env, s: State, m: Row): State
    requires m.sender.Agent? && InRange(s)
  {
    if Sends(m) != [] then SendCalls(env, s, m) else Think(s, m)
  }

  function Answered(t: Tool, r: ToolResult): Tool {
    t.(output := Some(r.output), isError := r.isError, status := if r.isError == Some(true) then Failed else Done)
  }

  function AttachOne(s: State, r: ToolResult): (s': State)
    requires InRange(s)
    ensures InRange(s')
  {
    if r.callId in s.sendIds || r.callId !in s.index then s
    else s.(tools := s.tools[s.index[r.callId] := Answered(s.tools[s.index[r.callId]], r)])
  }

  function Attach(s: State, results: seq<ToolResult>): (s': State)
    requires InRange(s)
    ensures InRange(s')
  {
    if results == [] then s else AttachOne(Attach(s, results[..|results| - 1]), results[|results| - 1])
  }

  lemma {:induction false} AddCallsInRange(s: State, agent: string, calls: seq<ToolCall>)
    requires InRange(s)
    ensures InRange(AddCalls(s, agent, calls))
  {
    if calls != [] { AddCallsInRange(s, agent, calls[..|calls| - 1]); }
  }

  lemma {:induction false} EmitAllInRange(env: Env, s: State, m: Row, reasoning: string, tools: seq<nat>,
                                          calls: seq<ToolCall>)
    requires m.sender.Agent? && InRange(s)
    ensures InRange(EmitAll(env, s, m, reasoning, tools, calls))
  {
    if calls != [] { EmitAllInRange(env, s, m, reasoning, tools, calls[..|calls| - 1]); }
  }

  lemma {:induction false} SendStepInRange(env: Env, s: State, m: Row)
    requires m.sender.Agent? && InRange(s)
    ensures InRange(SendStep(env, s, m))
  {
    var marked := s.(sendIds := s.sendIds + IdsOf(Sends(m)));
    EmitAllInRange(env, marked, m, JoinText(PendingOf(s, Who(m)).reasoning, m.body.reasoning),
                   PendingOf(s, Who(m)).tools, Delivered(env.failed, m));
  }

  /** The pending entry of the agent exists, and holds its new calls. */
  function Opened(s: State, m: Row): (s': State)
    requires m.sender.Agent? && InRange(s)
    ensures InRange(s')
  {
    var a := Who(m);
    var open := s.(pending := s.pending[a := PendingOf(s, a)]);
    AddCallsInRange(open, a, RealCalls(m));
    AddCalls(open, a, RealCalls(m))
  }

  function AgentRow(env: Env, s: State, m: Row): (s': State)
    requires m.sender.Agent? && InRange(s)
    ensures InRange(s')
  {
    SendStepInRange(env, Opened(s, m), m);
    Attach(SendStep(env, Opened(s, m), m), m.body.toolResults)
  }

  function HumanName(env: Env, m: Row): string {
    Or(m.displayName, env.poster.name)
  }

  function HumanText(env: Env, m: Row): string {
    PrefixName(m.body.text, ParticipantName(m.receiver, env.agents, env.humans))
  }

  function HumanFace(env: Env, m: Row): Face
    requires m.sender.Human?
  {
    Face(true, "h:" + Digits(m.seqNo) + ":user",
         if m.requestId.Some? then m.requestId.value else Or(m.clientKey, "seq:" + Digits(m.seqNo)), m.clientKey,
         None, None, Some(HumanName(env, m)), Some(Or(m.sender.user, env.poster.id)), m.avatarUrl,
         m.createdAt, HumanText(env, m), m.body.attachments)
  }

  /** The row says something. */
  predicate Speaks(m: Row) {
    m.body.text != "" || m.body.attachments != []
  }

  function RootOf(env: Env, m: Row): Root
    requires m.sender.Human?
  {
    Root(HumanName(env, m), Or(m.sender.user, env.poster.id), m.avatarUrl, m.createdAt, HumanText(env, m),
        m.body.attachments)
  }

  function HumanRow(env: Env, s: State, m: Row): (s': State)
    requires m.sender.Human? && InRange(s)
    ensures InRange(s')
  {
    if s.root.None? then s.(root := Some(RootOf(env, m)))
    else if Speaks(m) then s.(bubbles := s.bubbles + [Bubble(HumanFace(env, m), "", [])])
    else s
  }

  function FoldRow(env: Env, s: State, m: Row): (s': State)
    requires InRange(s)
    ensures InRange(s')
  {
    match m.sender
    case Agent(_, _) => AgentRow(env, s, m)
    case System => Attach(s, m.body.toolResults)
    case Human(_, _) => HumanRow(env, s, m)
  }

  function Fold(env: Env, rows: seq<Row>): (s: State)
    ensures InRange(s)
  {
    if rows == [] then START else FoldRow(env, Fold(env, rows[..|rows| - 1]), rows[|rows| - 1])
  }
}
