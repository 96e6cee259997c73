/** The fold meets its specification: bubble by bubble, for every history. */
module FoldProof {
  import opened Results
  import opened ChatBody
  import opened FoldModel
  import opened FoldSteps
  import opened FoldSpec

  // ----- Which bubbles there are -----

  /** Where a bubble comes from: a human's row, or a delivered call of an
      agent's row (`last` when it is the row's last one). */
  datatype Origin = Origin(row: nat, call: Option<ToolCall>, last: bool)

  ghost predicate AnyHuman(h: seq<Row>, n: nat) {
    exists j :: 0 <= j < n && j < |h| && h[j].sender.Human?
  }

  /** One bubble per delivered call of an agent's row, and one per human row
      that says something and is not the first. */
  ghost function OriginsOf(failed: set<string>, h: seq<Row>, i: nat): seq<Origin>
    requires i < |h|
  {
    match h[i].sender
    case Agent(_, _) =>
      var sent := Delivered(failed, h[i]);
      seq(|sent|, (k: nat) requires k < |sent| => Origin(i, Some(sent[k]), k + 1 == |sent|))
    case Human(_, _) => if AnyHuman(h, i) && Speaks(h[i]) then [Origin(i, None, false)] else []
    case System => []
  }

  ghost function Origins(failed: set<string>, h: seq<Row>, n: nat): seq<Origin>
    requires n <= |h|
  {
    if n == 0 then [] else Origins(failed, h, n - 1) + OriginsOf(failed, h, n - 1)
  }

  ghost predicate OriginOk(h: seq<Row>, n: nat, o: Origin) {
    o.row < n && o.row < |h| && if o.call.Some? then h[o.row].sender.Agent? else h[o.row].sender.Human?
  }

  lemma {:induction false} OriginAt(failed: set<string>, h: seq<Row>, n: nat, j: nat)
    requires n < |h| && j < |Origins(failed, h, n + 1)|
    ensures var x := |Origins(failed, h, n)|;
      if j < x then Origins(failed, h, n + 1)[j] == Origins(failed, h, n)[j]
      else j - x < |OriginsOf(failed, h, n)| && Origins(failed, h, n + 1)[j] == OriginsOf(failed, h, n)[j - x]
           && OriginOk(h, n + 1, Origins(failed, h, n + 1)[j]) && Origins(failed, h, n + 1)[j].row == n
  {
    hide OriginsOf;
    var x := |Origins(failed, h, n)|;
    assert Origins(failed, h, n + 1) == Origins(failed, h, n) + OriginsOf(failed, h, n);
    if j >= x { RowOriginIsOk(failed, h, n, j - x); }
  }

  lemma {:induction false} RowOriginIsOk(failed: set<string>, h: seq<Row>, i: nat, k: nat)
    requires i < |h| && k < |OriginsOf(failed, h, i)|
    ensures OriginOk(h, i + 1, OriginsOf(failed, h, i)[k]) && OriginsOf(failed, h, i)[k].row == i
  {
    hide Delivered, Speaks, AnyHuman;
  }

  lemma {:induction false} Later(h: seq<Row>, n: nat, o: Origin)
    requires OriginOk(h, n, o)
    ensures OriginOk(h, n + 1, o)
  {
  }

  lemma {:induction false} OriginIsOk(failed: set<string>, h: seq<Row>, n: nat, j: nat)
    requires n <= |h| && j < |Origins(failed, h, n)|
    ensures OriginOk(h, n, Origins(failed, h, n)[j])
    decreases n
  {
    var m := n - 1;
    OriginAt(failed, h, m, j);
    if j < |Origins(failed, h, m)| {
      OriginIsOk(failed, h, m, j);
      Later(h, m, Origins(failed, h, m)[j]);
    }
  }

  lemma {:induction false} LastOfRow(failed: set<string>, h: seq<Row>, i: nat, k: nat)
    requires i < |h| && k < |OriginsOf(failed, h, i)| && OriginsOf(failed, h, i)[k].last
    ensures k == |OriginsOf(failed, h, i)| - 1
  {
  }

  /** A row has one last bubble. */
  lemma {:induction false} OneLast(failed: set<string>, h: seq<Row>, n: nat, j: nat, k: nat)
    requires n <= |h| && j <= k < |Origins(failed, h, n)|
    requires Origins(failed, h, n)[j].last && Origins(failed, h, n)[k].last
    requires Origins(failed, h, n)[j].row == Origins(failed, h, n)[k].row
    ensures j == k
    decreases n
  {
    var m := n - 1;
    var x := |Origins(failed, h, m)|;
    OriginAt(failed, h, m, j);
    OriginAt(failed, h, m, k);
    if k < x {
      OneLast(failed, h, m, j, k);
    } else if j < x {
      OriginIsOk(failed, h, m, j);
    } else {
      LastOfRow(failed, h, m, j - x);
      LastOfRow(failed, h, m, k - x);
    }
  }

  /** The bubble of an origin once `n` rows are folded. */
  ghost function BubbleOf(env: Env, h: seq<Row>, n: nat, o: Origin): Bubble
    requires n <= |h| && OriginOk(h, n, o)
  {
    match o.call
    case Some(c) => Bubble(CallFace(env, h[o.row], c), JoinAll(h, GoesTo(env.failed, h, n, o.row, o.last)),
        BubbleTools(env.failed, h, o.row))
    case None => Bubble(HumanFace(env, h[o.row]), "", [])
  }

  // ----- What the state is after `n` rows -----

  ghost predicate CallsAre(h: seq<Row>, n: nat, s: State)
    requires n <= |h|
  {
    |s.tools| == |Sites(h, n)| && forall t :: 0 <= t < |s.tools| ==> CallIs(h, Sites(h, n)[t], s.tools[t])
  }

  ghost predicate CallIs(h: seq<Row>, site: Site, tool: Tool) {
    site.row < |h| && site.pos < |RealCalls(h[site.row])| && tool.call == RealCalls(h[site.row])[site.pos]
  }

  ghost function PendingIs(failed: set<string>, h: seq<Row>, n: nat, a: string): Pending
    requires n <= |h|
  {
    Pending(JoinAll(h, WaitingRows(failed, h, n, a)), WaitingTools(failed, h, n, a))
  }

  ghost predicate PendingsAre(env: Env, h: seq<Row>, n: nat, s: State)
    requires n <= |h|
  {
    forall a :: PendingOf(s, a) == PendingIs(env.failed, h, n, a)
  }

  ghost predicate LastIs(env: Env, h: seq<Row>, n: nat, s: State, a: string)
    requires n <= |h|
  {
    if a in s.last then
      s.last[a] < |Origins(env.failed, h, n)|
      && (var o := Origins(env.failed, h, n)[s.last[a]]; o.call.Some? && o.last && Latest(env.failed, h, a, o.row, n))
    else Quiet(env.failed, h, a, 0, n)
  }

  ghost predicate LastsAre(env: Env, h: seq<Row>, n: nat, s: State)
    requires n <= |h|
  {
    forall a :: LastIs(env, h, n, s, a)
  }

  ghost predicate BubbleIs(env: Env, h: seq<Row>, n: nat, b: Bubble, o: Origin)
    requires n <= |h|
  {
    OriginOk(h, n, o) && b == BubbleOf(env, h, n, o)
  }

  ghost predicate BubblesAre(env: Env, h: seq<Row>, n: nat, s: State)
    requires n <= |h|
  {
    |s.bubbles| == |Origins(env.failed, h, n)|
        && forall j :: 0 <= j < |s.bubbles| ==> BubbleIs(env, h, n, s.bubbles[j], Origins(env.failed, h, n)[j])
  }

  /** The root is the first human row. */
  ghost predicate RootIs(env: Env, h: seq<Row>, n: nat, s: State)
    requires n <= |h|
  {
    if s.root.None? then !AnyHuman(h, n)
    else exists i :: 0 <= i < n && h[i].sender.Human? && !AnyHuman(h, i) && s.root.value == RootOf(env, h[i])
  }

  ghost predicate Inv(env: Env, h: seq<Row>, n: nat, s: State)
    requires n <= |h|
  {
    CallsAre(h, n, s) && PendingsAre(env, h, n, s) && LastsAre(env, h, n, s) && BubblesAre(env, h, n, s)
        && RootIs(env, h, n, s) && InRange(s)
  }

  // ----- One row of an agent -----

  lemma {:induction false} ToolsTaken(failed: set<string>, h: seq<Row>, n: nat, s: State)
    requires n < |h| && h[n].sender.Agent? && |s.tools| == |Sites(h, n)|
    requires PendingOf(s, Who(h[n])).tools == WaitingTools(failed, h, n, Who(h[n]))
    ensures ToolsSoFar(s, h[n]) == BubbleTools(failed, h, n)
  {
    ToolsSoFarAre(failed, h, n, |s.tools|, PendingOf(s, Who(h[n])).tools);
  }

  lemma {:induction false} UnsentCall(failed: set<string>, h: seq<Row>, n: nat, d: nat, i: nat)
    requires n < |h| && h[n].sender.Agent? && Latest(failed, h, Who(h[n]), d, n)
    requires d < i <= n && By(h[i], Who(h[n])) && RealCalls(h[i]) != []
    ensures |Sites(h, i)| < |Sites(h, n + 1)| && ToolWaits(failed, h, Sites(h, n + 1), Who(h[n]), n, |Sites(h, i)|)
  {
    SiteOfRow(h, n + 1, i);
    QuietSuffix(failed, h, Who(h[n]), d + 1, i, n);
  }

  lemma {:induction false} QuietSuffix(failed: set<string>, h: seq<Row>, a: string, lo: nat, mid: nat, hi: nat)
    requires lo <= mid && Quiet(failed, h, a, lo, hi)
    ensures Quiet(failed, h, a, mid, hi)
  {
  }

  lemma {:induction false} UnsentTool(failed: set<string>, h: seq<Row>, n: nat, d: nat, t: nat)
    requires n < |h| && h[n].sender.Agent? && Latest(failed, h, Who(h[n]), d, n)
    requires ToolWaits(failed, h, Sites(h, n + 1), Who(h[n]), n, t)
    ensures !NoCalls(h, Who(h[n]), d + 1, n + 1)
  {
    SiteIsOk(h, n + 1, t);
  }

  /** Since the last delivery, no entry waits just when no call was made. */
  lemma {:induction false} NoCallsNoTools(failed: set<string>, h: seq<Row>, n: nat, d: nat)
    requires n < |h| && h[n].sender.Agent? && Latest(failed, h, Who(h[n]), d, n)
    ensures BubbleTools(failed, h, n) == [] <==> NoCalls(h, Who(h[n]), d + 1, n + 1)
  {
    var a, all := Who(h[n]), Sites(h, n + 1);
    BelowEmpty(|all|, ToolWaitsAt(failed, h, all, a, n));
    if i: nat :| d + 1 <= i < n + 1 && By(h[i], a) && RealCalls(h[i]) != [] {
      UnsentCall(failed, h, n, d, i);
      assert ToolWaitsAt(failed, h, all, a, n)(|Sites(h, i)|);
    } else if t: nat :| t < |all| && ToolWaitsAt(failed, h, all, a, n)(t) {
      UnsentTool(failed, h, n, d, t);
    }
  }

  lemma {:induction false} BackIsReflecting(env: Env, h: seq<Row>, n: nat, s: State)
    requires n < |h| && h[n].sender.Agent? && Inv(env, h, n, s)
    ensures GoesBack(s, h[n]) <==> Reflects(env.failed, h, n)
  {
    var a := Who(h[n]);
    assert PendingOf(s, a) == PendingIs(env.failed, h, n, a);
    ToolsTaken(env.failed, h, n, s);
    assert LastIs(env, h, n, s, a);
    if a in s.last {
      NoCallsNoTools(env.failed, h, n, Origins(env.failed, h, n)[s.last[a]].row);
    }
    if Reflects(env.failed, h, n) {
      var d: nat :| Latest(env.failed, h, a, d, n) && NoCalls(h, a, d + 1, n + 1);
      assert By(h[d], a);
      NoCallsNoTools(env.failed, h, n, d);
    }
  }

  lemma {:induction false} DeliversSends(failed: set<string>, m: Row)
    requires m.sender.Agent? && Delivers(failed, m)
    ensures Sends(m) != []
  {
  }

  lemma {:induction false} AgentPending(env: Env, h: seq<Row>, n: nat, s: State)
    requires n < |h| && h[n].sender.Agent? && Inv(env, h, n, s)
    ensures PendingsAre(env, h, n + 1, AgentRow(env, s, h[n]))
  {
    hide By;
    var m := h[n];
    var s' := AgentRow(env, s, m);
    AgentRowEffect(env, s, m);
    forall a
      ensures PendingOf(s', a) == PendingIs(env.failed, h, n + 1, a)
    {
      assert PendingOf(s, a) == PendingIs(env.failed, h, n, a);
      WaitingRowsStep(env.failed, h, n, a);
      ByIsWho(m, a);
      if a == Who(m) {
        ToolsTaken(env.failed, h, n, s);
        WaitingToolsStep(env.failed, h, n);
        BackIsReflecting(env, h, n, s);
        JoinSnoc(h, WaitingRows(env.failed, h, n, a), n);
      } else {
        WaitingToolsOthers(env.failed, h, n, a);
      }
    }
  }

  lemma {:induction false} OthersPending(env: Env, h: seq<Row>, n: nat, s: State, s': State)
    requires n < |h| && !h[n].sender.Agent? && PendingsAre(env, h, n, s) && s'.pending == s.pending
    ensures PendingsAre(env, h, n + 1, s')
  {
    forall a
      ensures PendingOf(s', a) == PendingIs(env.failed, h, n + 1, a)
    {
      assert PendingOf(s, a) == PendingIs(env.failed, h, n, a);
      WaitingRowsStep(env.failed, h, n, a);
      WaitingToolsOthers(env.failed, h, n, a);
    }
  }

  lemma {:induction false} CallsStep(env: Env, h: seq<Row>, n: nat, s: State, s': State)
    requires n < |h| && CallsAre(h, n, s)
    requires SameCalls(s'.tools, if h[n].sender.Agent? then s.tools + NewTools(RealCalls(h[n])) else s.tools)
    ensures CallsAre(h, n + 1, s')
  {
    SitesCount(h, n);
    forall t | 0 <= t < |s'.tools|
      ensures CallIs(h, Sites(h, n + 1)[t], s'.tools[t])
    {
      SiteAt(h, n, t);
      if t < |s.tools| { assert CallIs(h, Sites(h, n)[t], s.tools[t]); }
    }
  }

  // ----- The bubbles of a row -----

  /** The bubble a look back goes to is the agent's last. */
  lemma {:induction false} GoesBackTo(failed: set<string>, h: seq<Row>, n: nat, d: nat, last: bool)
    requires d < n < |h|
    ensures Goes(failed, h, n, d, last)
            <==> h[n].sender.Agent? && Reflects(failed, h, n) && last && Latest(failed, h, Who(h[n]), d, n)
  {
  }

  /** One more row, for a bubble already there. */
  lemma {:induction false} BubbleStep(env: Env, h: seq<Row>, n: nat, o: Origin)
    requires n < |h| && OriginOk(h, n, o)
    ensures BubbleOf(env, h, n + 1, o)
         == if o.call.Some? && Goes(env.failed, h, n, o.row, o.last)
            then BubbleOf(env, h, n, o).(reasoning := JoinText(BubbleOf(env, h, n, o).reasoning, Reasoning(h, n)))
            else BubbleOf(env, h, n, o)
  {
    if o.call.Some? {
      JoinSnoc(h, GoesTo(env.failed, h, n, o.row, o.last), n);
      GoesToStep(env.failed, h, n, o.row, o.last);
    }
  }

  lemma {:induction false} GoesToStep(failed: set<string>, h: seq<Row>, n: nat, d: nat, last: bool)
    ensures GoesTo(failed, h, n + 1, d, last) == if Goes(failed, h, n, d, last) then GoesTo(failed, h, n, d, last) + [n]
                                                 else GoesTo(failed, h, n, d, last)
  {
  }

  /** A bubble just sent holds what waited and the row's own reasoning. */
  lemma {:induction false} NewBubbleReasoning(failed: set<string>, h: seq<Row>, n: nat, last: bool)
    requires n < |h| && Delivers(failed, h[n])
    ensures JoinAll(h, GoesTo(failed, h, n + 1, n, last))
         == JoinText(JoinAll(h, WaitingRows(failed, h, n, Who(h[n]))), Reasoning(h, n))
  {
    DeliversSends(failed, h[n]);
    var goes, waits := GoesThere(failed, h, n, last), WaitsAt(failed, h, Who(h[n]), n);
    forall i: nat | i < n
      ensures goes(i) == waits(i)
    {
    }
    BelowSame(n, goes, waits);
    JoinSnoc(h, WaitingRows(failed, h, n, Who(h[n])), n);
  }

  lemma {:induction false} OneLatest(failed: set<string>, h: seq<Row>, a: string, d: nat, d': nat, n: nat)
    requires Latest(failed, h, a, d, n) && Latest(failed, h, a, d', n)
    ensures d == d'
  {
  }

  /** The bubble a row's reasoning goes back to is the one the state remembers. */
  lemma {:induction false} GoesToRemembered(env: Env, h: seq<Row>, n: nat, s: State, j: nat)
    requires n < |h| && h[n].sender.Agent? && LastIs(env, h, n, s, Who(h[n])) && Reflects(env.failed, h, n)
    requires j < |Origins(env.failed, h, n)| && OriginOk(h, n, Origins(env.failed, h, n)[j])
    ensures Who(h[n]) in s.last
    ensures Goes(env.failed, h, n, Origins(env.failed, h, n)[j].row, Origins(env.failed, h, n)[j].last)
            <==> j == s.last[Who(h[n])]
  {
    var a, o := Who(h[n]), Origins(env.failed, h, n)[j];
    var d: nat :| Latest(env.failed, h, a, d, n);
    assert By(h[d], a);
    GoesBackTo(env.failed, h, n, o.row, o.last);
    var j0 := s.last[a];
    if Goes(env.failed, h, n, o.row, o.last) {
      OneLatest(env.failed, h, a, o.row, Origins(env.failed, h, n)[j0].row, n);
      if j <= j0 { OneLast(env.failed, h, n, j, j0); } else { OneLast(env.failed, h, n, j0, j); }
    }
  }

  lemma {:induction false} OldBubble(env: Env, h: seq<Row>, n: nat, s: State, j: nat)
    requires n < |h| && h[n].sender.Agent? && InRange(s) && LastIs(env, h, n, s, Who(h[n]))
    requires GoesBack(s, h[n]) <==> Reflects(env.failed, h, n)
    requires j < |s.bubbles| == |Origins(env.failed, h, n)|
             && BubbleIs(env, h, n, s.bubbles[j], Origins(env.failed, h, n)[j])
    ensures BubbleIs(env, h, n + 1, BubblesAfter(env, s, h[n])[j], Origins(env.failed, h, n)[j])
  {
    var o := Origins(env.failed, h, n)[j];
    BubbleStep(env, h, n, o);
    GoesBackTo(env.failed, h, n, o.row, o.last);
    if Reflects(env.failed, h, n) {
      GoesToRemembered(env, h, n, s, j);
      LastIsACall(env, h, n, s);
      if Delivers(env.failed, h[n]) { DeliversSends(env.failed, h[n]); }
    }
  }

  lemma {:induction false} LastIsACall(env: Env, h: seq<Row>, n: nat, s: State)
    requires n < |h| && h[n].sender.Agent? && LastIs(env, h, n, s, Who(h[n])) && Who(h[n]) in s.last
    ensures Origins(env.failed, h, n)[s.last[Who(h[n])]].call.Some?
  {
  }

  lemma {:induction false} NewBubble(env: Env, h: seq<Row>, n: nat, s: State, k: nat)
    requires n < |h| && h[n].sender.Agent? && InRange(s) && k < |Delivered(env.failed, h[n])|
    requires PendingOf(s, Who(h[n])).reasoning == JoinAll(h, WaitingRows(env.failed, h, n, Who(h[n])))
    requires ToolsSoFar(s, h[n]) == BubbleTools(env.failed, h, n)
    ensures BubbleIs(env, h, n + 1, BubblesAfter(env, s, h[n])[|s.bubbles| + k], OriginsOf(env.failed, h, n)[k])
  {
    hide JoinAll, WaitingRows, BubbleTools, CallFace, Delivered;
    NewBubbleReasoning(env.failed, h, n, k + 1 == |Delivered(env.failed, h[n])|);
  }

  lemma {:induction false} BubblesCount(env: Env, h: seq<Row>, n: nat, s: State)
    requires n < |h| && h[n].sender.Agent? && InRange(s) && |s.bubbles| == |Origins(env.failed, h, n)|
    ensures |BubblesAfter(env, s, h[n])| == |Origins(env.failed, h, n + 1)|
  {
  }

  lemma {:induction false} BubbleAfter(env: Env, h: seq<Row>, n: nat, s: State, j: nat)
    requires n < |h| && h[n].sender.Agent? && InRange(s) && LastIs(env, h, n, s, Who(h[n]))
             && |s.bubbles| == |Origins(env.failed, h, n)|
    requires GoesBack(s, h[n]) <==> Reflects(env.failed, h, n)
    requires j < |s.bubbles| ==> BubbleIs(env, h, n, s.bubbles[j], Origins(env.failed, h, n)[j])
    requires PendingOf(s, Who(h[n])).reasoning == JoinAll(h, WaitingRows(env.failed, h, n, Who(h[n])))
    requires ToolsSoFar(s, h[n]) == BubbleTools(env.failed, h, n)
    requires j < |BubblesAfter(env, s, h[n])| == |Origins(env.failed, h, n + 1)|
    ensures BubbleIs(env, h, n + 1, BubblesAfter(env, s, h[n])[j], Origins(env.failed, h, n + 1)[j])
  {
    hide BubbleIs, JoinAll, WaitingRows, BubbleTools, Delivered, By, Goes, Reflects, LastIs, OriginsOf;
    OriginAt(env.failed, h, n, j);
    if j < |s.bubbles| {
      OldBubble(env, h, n, s, j);
    } else {
      var k := j - |s.bubbles|;
      NewBubble(env, h, n, s, k);
    }
  }

  lemma {:induction false} AgentBubbles(env: Env, h: seq<Row>, n: nat, s: State)
    requires n < |h| && h[n].sender.Agent? && Inv(env, h, n, s)
    ensures BubblesAre(env, h, n + 1, AgentRow(env, s, h[n]))
  {
    var a := Who(h[n]);
    AgentRowEffect(env, s, h[n]);
    BackIsReflecting(env, h, n, s);
    assert LastIs(env, h, n, s, a) && PendingOf(s, a) == PendingIs(env.failed, h, n, a);
    ToolsTaken(env.failed, h, n, s);
    BubblesCount(env, h, n, s);
    forall j | 0 <= j < |BubblesAfter(env, s, h[n])|
      ensures BubbleIs(env, h, n + 1, BubblesAfter(env, s, h[n])[j], Origins(env.failed, h, n + 1)[j])
    {
      BubbleAfter(env, h, n, s, j);
    }
  }

  /** A row of no agent leaves the bubbles, and may add its own. */
  lemma {:induction false} OthersBubbles(env: Env, h: seq<Row>, n: nat, s: State, s': State)
    requires n < |h| && !h[n].sender.Agent? && Inv(env, h, n, s)
    requires s'.bubbles == s.bubbles + if OriginsOf(env.failed, h, n) == [] then []
                                       else [Bubble(HumanFace(env, h[n]), "", [])]
    ensures BubblesAre(env, h, n + 1, s')
  {
    forall j | 0 <= j < |s'.bubbles|
      ensures BubbleIs(env, h, n + 1, s'.bubbles[j], Origins(env.failed, h, n + 1)[j])
    {
      OriginAt(env.failed, h, n, j);
      if j < |s.bubbles| {
        assert BubbleIs(env, h, n, s.bubbles[j], Origins(env.failed, h, n)[j]);
        BubbleStep(env, h, n, Origins(env.failed, h, n)[j]);
      }
    }
  }

  // ----- The last bubble of each agent, and the root -----

  lemma {:induction false} SameLast(env: Env, h: seq<Row>, n: nat, s: State, s': State, a: string)
    requires n < |h| && LastIs(env, h, n, s, a) && !(By(h[n], a) && Delivers(env.failed, h[n]))
    requires (a in s'.last <==> a in s.last) && (a in s.last ==> s'.last[a] == s.last[a])
    ensures LastIs(env, h, n + 1, s', a)
  {
    if a in s.last {
      OriginAt(env.failed, h, n, s.last[a]);
      QuietStep(env.failed, h, a, Origins(env.failed, h, n)[s.last[a]].row + 1, n);
    } else {
      QuietStep(env.failed, h, a, 0, n);
    }
  }

  lemma {:induction false} NewLast(env: Env, h: seq<Row>, n: nat, s': State)
    requires n < |h| && Delivers(env.failed, h[n]) && Who(h[n]) in s'.last
    requires s'.last[Who(h[n])] == |Origins(env.failed, h, n)| + |Delivered(env.failed, h[n])| - 1
    ensures LastIs(env, h, n + 1, s', Who(h[n]))
  {
    OriginAt(env.failed, h, n, s'.last[Who(h[n])]);
  }

  lemma {:induction false} AgentLasts(env: Env, h: seq<Row>, n: nat, s: State)
    requires n < |h| && h[n].sender.Agent? && Inv(env, h, n, s)
    ensures LastsAre(env, h, n + 1, AgentRow(env, s, h[n]))
  {
    hide By;
    var n', s' := n + 1, AgentRow(env, s, h[n]);
    AgentRowEffect(env, s, h[n]);
    forall a
      ensures LastIs(env, h, n', s', a)
    {
      assert LastIs(env, h, n, s, a);
      ByIsWho(h[n], a);
      if a == Who(h[n]) && Delivers(env.failed, h[n]) {
        NewLast(env, h, n, s');
      } else {
        SameLast(env, h, n, s, s', a);
      }
    }
  }

  lemma {:induction false} AnyHumanStep(h: seq<Row>, n: nat)
    requires n < |h|
    ensures AnyHuman(h, n + 1) <==> AnyHuman(h, n) || h[n].sender.Human?
  {
    if AnyHuman(h, n) {
      var j :| 0 <= j < n && j < |h| && h[j].sender.Human?;
      assert j < n + 1;
    }
  }

  lemma {:induction false} RootStep(env: Env, h: seq<Row>, n: nat, s: State, s': State)
    requires n < |h| && RootIs(env, h, n, s)
    requires s'.root == if s.root.None? && h[n].sender.Human? then Some(RootOf(env, h[n])) else s.root
    ensures RootIs(env, h, n + 1, s')
  {
    AnyHumanStep(h, n);
    if s.root.Some? {
      var i :| 0 <= i < n && h[i].sender.Human? && !AnyHuman(h, i) && s.root.value == RootOf(env, h[i]);
      assert i < n + 1;
    }
  }

  lemma {:induction false} RootExists(env: Env, h: seq<Row>, n: nat, s: State)
    requires n <= |h| && RootIs(env, h, n, s)
    ensures s.root.Some? <==> AnyHuman(h, n)
  {
  }

  // ----- All rows -----

  lemma {:induction false} AgentRowKeeps(env: Env, h: seq<Row>, n: nat, s: State)
    requires n < |h| && h[n].sender.Agent? && Inv(env, h, n, s)
    ensures var s' := AgentRow(env, s, h[n]);
      && PendingsAre(env, h, n + 1, s') && BubblesAre(env, h, n + 1, s') && LastsAre(env, h, n + 1, s')
      && SameCalls(s'.tools, s.tools + NewTools(RealCalls(h[n]))) && s'.root == s.root
  {
    AgentRowEffect(env, s, h[n]);
    AgentPending(env, h, n, s);
    AgentBubbles(env, h, n, s);
    AgentLasts(env, h, n, s);
  }

  lemma {:induction false} OtherRow(env: Env, h: seq<Row>, n: nat, s: State, s': State)
    requires n < |h| && !h[n].sender.Agent? && Inv(env, h, n, s) && s'.pending == s.pending && s'.last == s.last
    requires s'.bubbles == s.bubbles + if OriginsOf(env.failed, h, n) == [] then []
                                       else [Bubble(HumanFace(env, h[n]), "", [])]
    ensures PendingsAre(env, h, n + 1, s') && BubblesAre(env, h, n + 1, s') && LastsAre(env, h, n + 1, s')
  {
    OthersPending(env, h, n, s, s');
    OthersBubbles(env, h, n, s, s');
    var n' := n + 1;
    forall a
      ensures LastIs(env, h, n', s', a)
    {
      assert LastIs(env, h, n, s, a);
      SameLast(env, h, n, s, s', a);
    }
  }

  lemma {:induction false} HumanRowAdds(env: Env, h: seq<Row>, n: nat, s: State)
    requires n < |h| && h[n].sender.Human? && InRange(s) && (s.root.Some? <==> AnyHuman(h, n))
    ensures HumanRow(env, s, h[n]).bubbles == s.bubbles + if OriginsOf(env.failed, h, n) == [] then []
                                                          else [Bubble(HumanFace(env, h[n]), "", [])]
    ensures HumanRow(env, s, h[n]) == s.(bubbles := HumanRow(env, s, h[n]).bubbles, root := HumanRow(env, s, h[n]).root)
  {
    assert s.bubbles + [] == s.bubbles;
  }

  lemma {:induction false} HumanRowKeeps(env: Env, h: seq<Row>, n: nat, s: State)
    requires n < |h| && h[n].sender.Human? && Inv(env, h, n, s)
    ensures var s' := HumanRow(env, s, h[n]);
      && PendingsAre(env, h, n + 1, s') && BubblesAre(env, h, n + 1, s') && LastsAre(env, h, n + 1, s')
      && s'.tools == s.tools
  {
    RootExists(env, h, n, s);
    HumanRowAdds(env, h, n, s);
    OtherRow(env, h, n, s, HumanRow(env, s, h[n]));
  }

  lemma {:induction false} RowKeepsInv(env: Env, h: seq<Row>, n: nat, s: State)
    requires n < |h| && Inv(env, h, n, s)
    ensures Inv(env, h, n + 1, FoldRow(env, s, h[n]))
  {
    match h[n].sender {
      case Agent(_, _) =>
        AgentRowKeeps(env, h, n, s);
      case System =>
        AttachEffect(s, h[n].body.toolResults);
        OtherRow(env, h, n, s, FoldRow(env, s, h[n]));
      case Human(_, _) =>
        HumanRowKeeps(env, h, n, s);
    }
    CallsStep(env, h, n, s, FoldRow(env, s, h[n]));
    RootStep(env, h, n, s, FoldRow(env, s, h[n]));
  }

  lemma {:induction false} StartInv(env: Env, h: seq<Row>)
    ensures Inv(env, h, 0, START)
  {
  }

  lemma {:induction false} FoldStep(env: Env, h: seq<Row>, n: nat)
    requires 0 < n <= |h|
    ensures Fold(env, h[..n]) == FoldRow(env, Fold(env, h[..n - 1]), h[n - 1])
  {
    assert h[..n][..n - 1] == h[..n - 1];
  }

  lemma {:induction false} NextInv(env: Env, h: seq<Row>, n: nat, s: State, s': State)
    requires 0 < n <= |h| && Inv(env, h, n - 1, s) && s' == FoldRow(env, s, h[n - 1])
    ensures Inv(env, h, n, s')
  {
    hide CallsAre, PendingsAre, LastsAre, BubblesAre, RootIs, FoldRow, AnyHuman;
    RowKeepsInv(env, h, n - 1, s);
  }

  /** After every prefix of every history the state is what the rows say. */
  lemma {:induction false} FoldInv(env: Env, h: seq<Row>, n: nat)
    requires n <= |h|
    ensures Inv(env, h, n, Fold(env, h[..n]))
    decreases n
  {
    if n == 0 {
      StartInv(env, h);
    } else {
      FoldInv(env, h, n - 1);
      FoldStep(env, h, n);
      NextInv(env, h, n, Fold(env, h[..n - 1]), Fold(env, h[..n]));
    }
  }
}
