/** Tool results reach their entries: with distinct call ids, an entry ends
    with the last result for its call, whenever that came. */
module FoldResults {
  import opened Results
  import opened ChatBody
  import opened FoldModel
  import opened FoldSteps
  import opened FoldSpec
  import opened FoldProof
  import opened FoldTheorems

  // ----- The last result of a call -----

  /** The results a row hands out: a human's row hands out none. */
  function ResultsIn(m: Row): seq<ToolResult> {
    if m.sender.Human? then [] else m.body.toolResults
  }

  function LastIn(results: seq<ToolResult>, id: string): Option<ToolResult> {
    if results == [] then None
    else if results[|results| - 1].callId == id then Some(results[|results| - 1])
    else LastIn(results[..|results| - 1], id)
  }

  /** The last result for `id` in rows `q` up to `n`. */
  function Answer(h: seq<Row>, q: nat, n: nat, id: string): Option<ToolResult>
    requires n <= |h|
    decreases n
  {
    if n <= q then None
    else if LastIn(ResultsIn(h[n - 1]), id).Some? then LastIn(ResultsIn(h[n - 1]), id)
    else Answer(h, q, n - 1, id)
  }

  ghost predicate Answers(m: Row, k: nat, id: string) {
    k < |ResultsIn(m)| && ResultsIn(m)[k].callId == id
  }

  ghost predicate NoneIn(m: Row, id: string) {
    forall k: nat :: !Answers(m, k, id)
  }

  /** No row from `lo` up to `hi` has a result for the call. */
  ghost predicate NoAnswer(h: seq<Row>, lo: nat, hi: nat, id: string) {
    forall i :: lo <= i < hi && i < |h| ==> NoneIn(h[i], id)
  }

  /** `r` is the last result for the call in its row. */
  ghost predicate LastInRow(m: Row, id: string, r: ToolResult) {
    exists k: nat :: Answers(m, k, id) && ResultsIn(m)[k] == r && forall j: nat :: k < j ==> !Answers(m, j, id)
  }

  lemma {:induction false} LastInIsLast(results: seq<ToolResult>, id: string)
    ensures match LastIn(results, id)
      case None => forall k :: 0 <= k < |results| ==> results[k].callId != id
      case Some(r) => exists k :: 0 <= k < |results| && results[k] == r && r.callId == id
                        && forall j :: k < j < |results| ==> results[j].callId != id
    decreases |results|
  {
    if results != [] {
      var n := |results| - 1;
      if results[n].callId != id {
        LastInIsLast(results[..n], id);
        if LastIn(results[..n], id).Some? {
          var k :| 0 <= k < n && results[..n][k] == LastIn(results, id).value && results[..n][k].callId == id
                   && forall j :: k < j < n ==> results[..n][j].callId != id;
          assert results[k] == results[..n][k] && forall j :: k < j < n ==> results[j] == results[..n][j];
        } else {
          assert forall k :: 0 <= k < n ==> results[k] == results[..n][k];
        }
      }
    }
  }

  lemma {:induction false} LastInRowIs(m: Row, id: string)
    ensures match LastIn(ResultsIn(m), id) case None => NoneIn(m, id) case Some(r) => LastInRow(m, id, r)
  {
    LastInIsLast(ResultsIn(m), id);
    if LastIn(ResultsIn(m), id).Some? {
      var k: nat :| k < |ResultsIn(m)| && ResultsIn(m)[k] == LastIn(ResultsIn(m), id).value
          && ResultsIn(m)[k].callId == id
               && forall j :: k < j < |ResultsIn(m)| ==> ResultsIn(m)[j].callId != id;
      assert Answers(m, k, id);
    }
  }

  /** `answer` is the last result for the call in rows `q` up to `n`, if there is one. */
  ghost predicate IsLastAnswer(h: seq<Row>, q: nat, n: nat, id: string, answer: Option<ToolResult>)
    requires n <= |h|
  {
    match answer
    case None => NoAnswer(h, q, n, id)
    case Some(r) => exists i: nat :: q <= i < n && LastInRow(h[i], id, r) && NoAnswer(h, i + 1, n, id)
  }

  lemma {:induction false} NextRow(h: seq<Row>, q: nat, n: nat, id: string)
    requires q < n <= |h| && IsLastAnswer(h, q, n - 1, id, Answer(h, q, n - 1, id))
    ensures IsLastAnswer(h, q, n, id, Answer(h, q, n, id))
  {
    var found := LastIn(ResultsIn(h[n - 1]), id);
    LastInRowIs(h[n - 1], id);
    if found.Some? {
    }
  }

  lemma {:induction false} AnswerIsLast(h: seq<Row>, q: nat, n: nat, id: string)
    requires n <= |h|
    ensures IsLastAnswer(h, q, n, id, Answer(h, q, n, id))
    decreases n
  {
    if n > q {
      AnswerIsLast(h, q, n - 1, id);
      NextRow(h, q, n, id);
    }
  }

  // ----- Distinct ids -----

  function CallAt(h: seq<Row>, site: Site): ToolCall
    requires SiteOk(h, |h|, site)
  {
    RealCalls(h[site.row])[site.pos]
  }

  /** No two of the entries' calls share an id, and no send has the id of one. */
  ghost predicate DistinctIds(h: seq<Row>) {
    && (forall t, u :: 0 <= t < u < |Sites(h, |h|)| ==> IdOf(h, t) != IdOf(h, u))
    && (forall t, i :: 0 <= t < |Sites(h, |h|)| && 0 <= i < |h| ==> IdOf(h, t) !in IdsOf(Sends(h[i])))
  }

  ghost function IdOf(h: seq<Row>, t: nat): string
    requires t < |Sites(h, |h|)|
  {
    SiteIsOk(h, |h|, t);
    CallAt(h, Sites(h, |h|)[t]).id
  }

  // ----- The index, and one result -----

  /** The index and the entries agree, and no send's id is an entry's. */
  ghost predicate Indexed(s: State) {
    && (forall t :: 0 <= t < |s.tools| ==> EntryFound(s, t))
    && (forall id :: id in s.index ==> s.index[id] < |s.tools| && s.tools[s.index[id]].call.id == id)
  }

  ghost predicate EntryFound(s: State, t: nat)
    requires t < |s.tools|
  {
    s.tools[t].call.id in s.index && s.index[s.tools[t].call.id] == t && s.tools[t].call.id !in s.sendIds
  }

  function After(tool: Tool, answer: Option<ToolResult>): Tool {
    match answer
    case None => tool
    case Some(r) => Tool(tool.call, if r.isError == Some(true) then Failed else Done, Some(r.output), r.isError)
  }

  lemma {:induction false} AttachOneTo(s: State, r: ToolResult, t: nat)
    requires InRange(s) && Indexed(s) && t < |s.tools|
    ensures var s' := AttachOne(s, r);
      && |s'.tools| == |s.tools| && s'.index == s.index && s'.sendIds == s.sendIds
      && s'.tools[t] == if r.callId == s.tools[t].call.id then Answered(s.tools[t], r) else s.tools[t]
  {
    assert EntryFound(s, t);
  }

  lemma {:induction false} StillIndexed(s: State, s': State)
    requires Indexed(s) && SameCalls(s'.tools, s.tools) && s'.index == s.index && s'.sendIds == s.sendIds
    ensures Indexed(s')
  {
    forall t | 0 <= t < |s'.tools|
      ensures EntryFound(s', t)
    {
      assert EntryFound(s, t);
    }
  }

  /** A list of results leaves each entry with the last one for it. */
  lemma {:induction false} AttachTo(s: State, results: seq<ToolResult>, t: nat)
    requires InRange(s) && Indexed(s) && t < |s.tools|
    ensures Indexed(Attach(s, results)) && |Attach(s, results).tools| == |s.tools|
    ensures Attach(s, results).tools[t] == After(s.tools[t], LastIn(results, s.tools[t].call.id))
    decreases |results|
  {
    AttachEffect(s, results);
    StillIndexed(s, Attach(s, results));
    if results != [] {
      var n := |results| - 1;
      AttachTo(s, results[..n], t);
      AttachOneTo(Attach(s, results[..n]), results[n], t);
    }
  }

  // ----- New calls -----

  ghost predicate Fresh(s: State, calls: seq<ToolCall>) {
    && (forall c :: 0 <= c < |calls| ==> calls[c].id !in s.index && calls[c].id !in s.sendIds)
    && (forall c, d :: 0 <= c < d < |calls| ==> calls[c].id != calls[d].id)
  }

  lemma {:induction false} AddCallIndexed(s: State, agent: string, c: ToolCall)
    requires Indexed(s) && c.id !in s.index && c.id !in s.sendIds
    ensures Indexed(AddCall(s, agent, c))
  {
    var s' := AddCall(s, agent, c);
    forall t | 0 <= t < |s'.tools|
      ensures EntryFound(s', t)
    {
      if t < |s.tools| { assert EntryFound(s, t); }
    }
  }

  lemma {:induction false} AddCallsIndexed(s: State, agent: string, calls: seq<ToolCall>)
    requires Indexed(s) && Fresh(s, calls)
    ensures Indexed(AddCalls(s, agent, calls))
    ensures forall id :: id in AddCalls(s, agent, calls).index
              ==> id in s.index || exists c :: 0 <= c < |calls| && calls[c].id == id
    ensures AddCalls(s, agent, calls).sendIds == s.sendIds
    decreases |calls|
  {
    if calls != [] {
      var n := |calls| - 1;
      AddCallsIndexed(s, agent, calls[..n]);
      var mid := AddCalls(s, agent, calls[..n]);
      assert forall c :: 0 <= c < n ==> calls[..n][c] == calls[c];
      AddCallIndexed(mid, agent, calls[n]);
      forall id | id in AddCalls(s, agent, calls).index
        ensures id in s.index || exists c :: 0 <= c < |calls| && calls[c].id == id
      {
        if id in mid.index && id !in s.index {
          var c :| 0 <= c < n && calls[..n][c].id == id;
          assert calls[c].id == id;
        } else if id != calls[n].id {
          assert id in mid.index;
        }
      }
    }
  }

  // ----- Row by row -----

  ghost predicate NoneSent(tools: seq<Tool>, ids: set<string>) {
    forall t :: 0 <= t < |tools| ==> tools[t].call.id !in ids
  }

  /** What an agent's row leaves before its own results are attached. */
  lemma {:induction false} BeforeAttach(env: Env, s: State, m: Row)
    requires m.sender.Agent? && InRange(s) && Indexed(s) && Fresh(s, RealCalls(m))
    requires NoneSent(s.tools + NewTools(RealCalls(m)), IdsOf(Sends(m)))
    ensures var s' := SendStep(env, Opened(s, m), m);
      && s'.tools == s.tools + NewTools(RealCalls(m)) && Indexed(s') && s'.sendIds == s.sendIds + IdsOf(Sends(m))
      && (forall id :: id in s'.index
            ==> id in s.index || exists c :: 0 <= c < |RealCalls(m)| && RealCalls(m)[c].id == id)
  {
    var open := s.(pending := s.pending[Who(m) := PendingOf(s, Who(m))]);
    assert Indexed(open) by {
      forall t | 0 <= t < |s.tools|
        ensures EntryFound(open, t)
      {
        assert EntryFound(s, t);
      }
    }
    AddCallsIndexed(open, Who(m), RealCalls(m));
    OpenedEffect(s, m);
    SendStepEffect(env, Opened(s, m), m);
    MoreSends(Opened(s, m), SendStep(env, Opened(s, m), m), IdsOf(Sends(m)));
  }

  lemma {:induction false} MoreSends(s: State, s': State, ids: set<string>)
    requires Indexed(s) && s'.tools == s.tools && s'.index == s.index && s'.sendIds == s.sendIds + ids
    requires NoneSent(s.tools, ids)
    ensures Indexed(s')
  {
    forall t | 0 <= t < |s'.tools|
      ensures EntryFound(s', t)
    {
      assert EntryFound(s, t);
    }
  }

  /** Entries, ids and index after `n` rows of a history whose ids are distinct. */
  ghost predicate ResultsAre(h: seq<Row>, n: nat, s: State)
    requires n <= |h|
  {
    && Indexed(s)
    && |s.tools| == |Sites(h, n)| <= |Sites(h, |h|)|
    && (forall t :: 0 <= t < |s.tools| ==> EntryIs(h, n, s, t))
    && (forall id :: id in s.index ==> exists t :: 0 <= t < |s.tools| && IdOf(h, t) == id)
    && (forall id :: id in s.sendIds ==> exists i :: 0 <= i < n && id in IdsOf(Sends(h[i])))
  }

  /** The entry as its call and the last result so far make it. */
  ghost predicate EntryIs(h: seq<Row>, n: nat, s: State, t: nat)
    requires n <= |h| && t < |s.tools| && t < |Sites(h, |h|)|
  {
    var site := Sites(h, |h|)[t];
    SiteOk(h, |h|, site)
    && s.tools[t] == After(Tool(CallAt(h, site), Running, None, None), Answer(h, site.row, n, CallAt(h, site).id))
  }

  /** Attaching a row's results, for an entry made no later. */
  lemma {:induction false} EntryStep(h: seq<Row>, n: nat, s: State, t: nat)
    requires n < |h| && InRange(s) && Indexed(s) && t < |s.tools| && t < |Sites(h, |h|)| && Sites(h, |h|)[t].row <= n
    requires EntryIs(h, n, s, t)
    ensures |Attach(s, ResultsIn(h[n])).tools| == |s.tools| && EntryIs(h, n + 1, Attach(s, ResultsIn(h[n])), t)
  {
    AttachTo(s, ResultsIn(h[n]), t);
  }

  lemma {:induction false} NewEntry(h: seq<Row>, n: nat, s: State, t: nat)
    requires n < |h| && h[n].sender.Agent? && |Sites(h, n)| <= t < |Sites(h, n + 1)| && |s.tools| == |Sites(h, n + 1)|
    requires s.tools[t] == NewTools(RealCalls(h[n]))[t - |Sites(h, n)|]
    ensures t < |Sites(h, |h|)| && Sites(h, |h|)[t] == Site(n, t - |Sites(h, n)|) && EntryIs(h, n, s, t)
  {
    SiteAt(h, n, t);
    SitesGrow(h, n + 1, |h|, t);
  }

  lemma {:induction false} OldEntry(h: seq<Row>, n: nat, t: nat)
    requires n <= |h| && t < |Sites(h, n)|
    ensures t < |Sites(h, |h|)| && Sites(h, |h|)[t] == Sites(h, n)[t] && Sites(h, n)[t].row < n
  {
    SitesGrow(h, n, |h|, t);
    SiteIsOk(h, n, t);
  }

  /** Results are handed out: what `EntryIs` says of row `n`, it says of the next. */
  lemma {:induction false} AttachStep(h: seq<Row>, n: nat, s: State)
    requires n < |h| && InRange(s) && Indexed(s) && |s.tools| == |Sites(h, n + 1)| <= |Sites(h, |h|)|
    requires forall t :: 0 <= t < |s.tools| ==> EntryIs(h, n, s, t)
    ensures var s', n' := Attach(s, ResultsIn(h[n])), n + 1;
      |s'.tools| == |s.tools| && Indexed(s') && forall t :: 0 <= t < |s'.tools| ==> EntryIs(h, n', s', t)
  {
    var s', n' := Attach(s, ResultsIn(h[n])), n + 1;
    AttachEffect(s, ResultsIn(h[n]));
    StillIndexed(s, s');
    forall t | 0 <= t < |s.tools|
      ensures EntryIs(h, n', s', t)
    {
      OldEntry(h, n + 1, t);
      EntryStep(h, n, s, t);
    }
  }

  /** The id of an entry, seen from its row. */
  lemma {:induction false} IdOfCall(h: seq<Row>, n: nat, c: nat, t: nat)
    requires n < |h| && h[n].sender.Agent? && c < |RealCalls(h[n])| && t == |Sites(h, n)| + c
    ensures t < |Sites(h, |h|)| && IdOf(h, t) == RealCalls(h[n])[c].id
  {
    SitesCount(h, n);
    SiteAt(h, n, t);
    SitesGrow(h, n + 1, |h|, t);
  }

  lemma {:induction false} CallIsFresh(h: seq<Row>, n: nat, s: State, c: nat)
    requires n < |h| && h[n].sender.Agent? && DistinctIds(h) && ResultsAre(h, n, s) && c < |RealCalls(h[n])|
    ensures RealCalls(h[n])[c].id !in s.index && RealCalls(h[n])[c].id !in s.sendIds
  {
    IdOfCall(h, n, c, |Sites(h, n)| + c);
  }

  lemma {:induction false} CallsDiffer(h: seq<Row>, n: nat, c: nat, d: nat)
    requires n < |h| && h[n].sender.Agent? && DistinctIds(h) && c < d < |RealCalls(h[n])|
    ensures RealCalls(h[n])[c].id != RealCalls(h[n])[d].id
  {
    IdOfCall(h, n, c, |Sites(h, n)| + c);
    IdOfCall(h, n, d, |Sites(h, n)| + d);
  }

  lemma {:induction false} CallsAreFresh(h: seq<Row>, n: nat, s: State)
    requires n < |h| && h[n].sender.Agent? && DistinctIds(h) && ResultsAre(h, n, s)
    ensures Fresh(s, RealCalls(h[n]))
  {
    var calls := RealCalls(h[n]);
    forall c | 0 <= c < |calls|
      ensures calls[c].id !in s.index && calls[c].id !in s.sendIds
    {
      CallIsFresh(h, n, s, c);
    }
    forall c, d | 0 <= c < d < |calls|
      ensures calls[c].id != calls[d].id
    {
      CallsDiffer(h, n, c, d);
    }
  }

  lemma {:induction false} NoSendOfTheRow(h: seq<Row>, n: nat, s: State)
    requires n < |h| && h[n].sender.Agent? && DistinctIds(h) && ResultsAre(h, n, s)
    ensures NoneSent(s.tools + NewTools(RealCalls(h[n])), IdsOf(Sends(h[n])))
  {
    var all := s.tools + NewTools(RealCalls(h[n]));
    forall t | 0 <= t < |all|
      ensures all[t].call.id !in IdsOf(Sends(h[n]))
    {
      if t < |s.tools| {
        assert EntryIs(h, n, s, t);
        assert IdOf(h, t) !in IdsOf(Sends(h[n]));
      } else {
        IdOfCall(h, n, t - |s.tools|, t);
        assert IdOf(h, t) !in IdsOf(Sends(h[n]));
      }
    }
  }

  lemma {:induction false} AgentResults(env: Env, h: seq<Row>, n: nat, s: State)
    requires n < |h| && h[n].sender.Agent? && DistinctIds(h) && ResultsAre(h, n, s) && InRange(s)
    ensures ResultsAre(h, n + 1, AgentRow(env, s, h[n]))
  {
    hide EntryIs, Indexed, Fresh, NoneSent, SendStep, Attach, Opened;
    var m := h[n];
    CallsAreFresh(h, n, s);
    NoSendOfTheRow(h, n, s);
    BeforeAttach(env, s, m);
    SendStepInRange(env, Opened(s, m), m);
    var mid := SendStep(env, Opened(s, m), m);
    SitesCount(h, n);
    SitesFit(h, n + 1);
    forall t | 0 <= t < |mid.tools|
      ensures EntryIs(h, n, mid, t)
    {
      if t < |s.tools| { SameEntry(h, n, s, mid, t); } else { NewEntry(h, n, mid, t); }
    }
    AttachStep(h, n, mid);
    AttachEffect(mid, ResultsIn(m));
    IdsGrow(h, n, s, AgentRow(env, s, m));
  }

  lemma {:induction false} SameEntry(h: seq<Row>, n: nat, s: State, s': State, t: nat)
    requires n <= |h| && t < |s.tools| && t < |s'.tools| && t < |Sites(h, |h|)| && EntryIs(h, n, s, t)
             && s'.tools[t] == s.tools[t]
    ensures EntryIs(h, n, s', t)
  {
  }

  lemma {:induction false} SitesFit(h: seq<Row>, n: nat)
    requires n <= |h|
    ensures |Sites(h, n)| <= |Sites(h, |h|)|
  {
    if |Sites(h, n)| > 0 { SitesGrow(h, n, |h|, |Sites(h, n)| - 1); }
  }

  /** The index and the send ids hold nothing but what the rows put there. */
  lemma {:induction false} IdsGrow(h: seq<Row>, n: nat, s: State, s': State)
    requires n < |h| && h[n].sender.Agent? && ResultsAre(h, n, s)
             && |s'.tools| == |s.tools| + |RealCalls(h[n])| <= |Sites(h, |h|)|
    requires forall id :: id in s'.index
               ==> id in s.index || exists c :: 0 <= c < |RealCalls(h[n])| && RealCalls(h[n])[c].id == id
    requires s'.sendIds == s.sendIds + IdsOf(Sends(h[n]))
    ensures forall id :: id in s'.index ==> exists t :: 0 <= t < |s'.tools| && IdOf(h, t) == id
    ensures forall id :: id in s'.sendIds ==> exists i :: 0 <= i < n + 1 && id in IdsOf(Sends(h[i]))
  {
    forall id | id in s'.index
      ensures exists t :: 0 <= t < |s'.tools| && IdOf(h, t) == id
    {
      if id in s.index {
        var t :| 0 <= t < |s.tools| && IdOf(h, t) == id;
      } else {
        var c :| 0 <= c < |RealCalls(h[n])| && RealCalls(h[n])[c].id == id;
        IdOfCall(h, n, c, |Sites(h, n)| + c);
      }
    }
    forall id | id in s'.sendIds
      ensures exists i :: 0 <= i < n + 1 && id in IdsOf(Sends(h[i]))
    {
      if id in s.sendIds {
        var i :| 0 <= i < n && id in IdsOf(Sends(h[i]));
        assert i < n + 1;
      }
    }
  }

  /** A row of no agent only hands out its results. */
  lemma {:induction false} OthersResults(h: seq<Row>, n: nat, s: State)
    requires n < |h| && !h[n].sender.Agent? && ResultsAre(h, n, s) && InRange(s)
    ensures ResultsAre(h, n + 1, Attach(s, ResultsIn(h[n])))
  {
    SitesCount(h, n);
    AttachStep(h, n, s);
    AttachEffect(s, ResultsIn(h[n]));
    forall id | id in s.sendIds
      ensures exists i :: 0 <= i < n + 1 && id in IdsOf(Sends(h[i]))
    {
      var i :| 0 <= i < n && id in IdsOf(Sends(h[i]));
      assert i < n + 1;
    }
  }

  lemma {:induction false} OtherRowKeepsResults(env: Env, h: seq<Row>, n: nat, s: State, s': State)
    requires n < |h| && !h[n].sender.Agent? && ResultsAre(h, n, s) && InRange(s) && s' == FoldRow(env, s, h[n])
    ensures ResultsAre(h, n + 1, s')
  {
    OthersResults(h, n, s);
    OthersAttach(env, s, h[n]);
    SameResults(h, n + 1, Attach(s, ResultsIn(h[n])), s');
  }

  lemma {:induction false} RowKeepsResults(env: Env, h: seq<Row>, n: nat, s: State, s': State)
    requires n < |h| && DistinctIds(h) && ResultsAre(h, n, s) && InRange(s) && s' == FoldRow(env, s, h[n])
    ensures ResultsAre(h, n + 1, s')
  {
    if h[n].sender.Agent? { AgentResults(env, h, n, s); } else { OtherRowKeepsResults(env, h, n, s, s'); }
  }

  lemma {:induction false} OthersAttach(env: Env, s: State, m: Row)
    requires !m.sender.Agent? && InRange(s)
    ensures var s', s'' := FoldRow(env, s, m), Attach(s, ResultsIn(m));
      s'.tools == s''.tools && s'.index == s''.index && s'.sendIds == s''.sendIds
  {
  }

  lemma {:induction false} SameResults(h: seq<Row>, n: nat, s: State, s': State)
    requires n <= |h| && ResultsAre(h, n, s) && s'.tools == s.tools && s'.index == s.index && s'.sendIds == s.sendIds
    ensures ResultsAre(h, n, s')
  {
    StillIndexed(s, s');
    forall t | 0 <= t < |s'.tools|
      ensures EntryIs(h, n, s', t)
    {
      assert EntryIs(h, n, s, t);
    }
  }

  lemma {:induction false} FoldResultsAre(env: Env, h: seq<Row>, n: nat)
    requires n <= |h| && DistinctIds(h)
    ensures ResultsAre(h, n, Fold(env, h[..n]))
    decreases n
  {
    if n > 0 {
      FoldResultsAre(env, h, n - 1);
      assert h[..n][..n - 1] == h[..n - 1];
      RowKeepsResults(env, h, n - 1, Fold(env, h[..n - 1]), Fold(env, h[..n]));
    }
  }

  /** With distinct ids, every entry ends with the last result for its call,
      in the rows from the call's own on, or is still running. */
  lemma {:induction false} EntriesEndWithTheLastResult(env: Env, h: seq<Row>, t: nat)
    requires DistinctIds(h) && t < |Sites(h, |h|)|
    ensures var s, site := Fold(env, h), Sites(h, |h|)[t];
      && SiteOk(h, |h|, site) && t < |s.tools|
      && exists answer :: IsLastAnswer(h, site.row, |h|, CallAt(h, site).id, answer)
                       && s.tools[t] == After(Tool(CallAt(h, site), Running, None, None), answer)
  {
    FoldResultsAre(env, h, |h|);
    assert h[..|h|] == h;
    var site := Sites(h, |h|)[t];
    assert EntryIs(h, |h|, Fold(env, h), t);
    AnswerIsLast(h, site.row, |h|, CallAt(h, site).id);
  }

  /** Bubble `j` holds the entry of a call just when its row is the agent's first
      to deliver a send from the call on. */
  ghost predicate FirstToDeliver(failed: set<string>, h: seq<Row>, o: Origin, r: nat) {
    && r <= o.row < |h| && o.call.Some? && h[o.row].sender.Agent? && Delivers(failed, h[o.row])
    && By(h[r], Who(h[o.row])) && Quiet(failed, h, Who(h[o.row]), r, o.row)
  }

  lemma {:induction false} DeliversItsOrigins(failed: set<string>, h: seq<Row>, n: nat, j: nat)
    requires n < |h| && j < |Origins(failed, h, n + 1)|
    ensures var o := Origins(failed, h, n + 1)[j];
      OriginOk(h, n + 1, o) && (o.call.Some? ==> Delivers(failed, h[o.row]))
    decreases n
  {
    var x := |Origins(failed, h, n)|;
    OriginAt(failed, h, n, j);
    if j >= x {
      RowDelivers(failed, h, n, j - x);
    } else if n > 0 {
      DeliversItsOrigins(failed, h, n - 1, j);
    }
  }

  lemma {:induction false} RowDelivers(failed: set<string>, h: seq<Row>, i: nat, k: nat)
    requires i < |h| && k < |OriginsOf(failed, h, i)|
    ensures OriginsOf(failed, h, i)[k].call.Some? ==> Delivers(failed, h[i])
  {
  }

  /** The whole way of a tool call, with distinct ids: its entry is in exactly
      the bubbles of its agent's first row, from the call on, that delivers a
      send, and shows there the last result for the call, whenever that came. */
  lemma {:induction false} EntryOfACall(env: Env, h: seq<Row>, t: nat, j: nat)
    requires DistinctIds(h) && t < |Sites(h, |h|)| && j < |Origins(env.failed, h, |h|)|
    ensures var s, site, o := Fold(env, h), Sites(h, |h|)[t], Origins(env.failed, h, |h|)[j];
      && SiteOk(h, |h|, site) && t < |s.tools| && j < |s.bubbles|
      && (t in s.bubbles[j].tools <==> FirstToDeliver(env.failed, h, o, site.row))
      && exists answer :: IsLastAnswer(h, site.row, |h|, CallAt(h, site).id, answer)
                       && s.tools[t] == After(Tool(CallAt(h, site), Running, None, None), answer)
  {
    EntriesEndWithTheLastResult(env, h, t);
    var o := Origins(env.failed, h, |h|)[j];
    DeliversItsOrigins(env.failed, h, |h| - 1, j);
    if o.call.Some? {
      ToolsAreKept(env, h);
      ToolGoesTo(env.failed, h, t, o.row);
    } else {
      HumansHoldNothing(env, h, j);
    }
  }

  lemma {:induction false} HumansHoldNothing(env: Env, h: seq<Row>, j: nat)
    requires j < |Origins(env.failed, h, |h|)| && Origins(env.failed, h, |h|)[j].call.None?
    ensures j < |Fold(env, h).bubbles| && Fold(env, h).bubbles[j].tools == []
  {
    FoldInv(env, h, |h|);
    assert h[..|h|] == h;
    assert BubbleIs(env, h, |h|, Fold(env, h).bubbles[j], Origins(env.failed, h, |h|)[j]);
  }
}
