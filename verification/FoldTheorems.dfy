/** What a reader of the thread may rely on. */
module FoldTheorems {
  import opened Results
  import opened ChatBody
  import opened FoldModel
  import opened FoldSteps
  import opened FoldSpec
  import opened FoldProof

  // ----- The list of bubbles -----

  ghost function FaceOf(env: Env, h: seq<Row>, o: Origin): Face
    requires OriginOk(h, |h|, o)
  {
    if o.call.Some? then CallFace(env, h[o.row], o.call.value) else HumanFace(env, h[o.row])
  }

  /** One bubble per origin, in row then call order, with its reasoning and tools. */
  lemma {:induction false} BubbleList(env: Env, h: seq<Row>)
    ensures var s, origins := Fold(env, h), Origins(env.failed, h, |h|);
      && |s.bubbles| == |origins|
      && forall j :: 0 <= j < |origins|
           ==> OriginOk(h, |h|, origins[j]) && s.bubbles[j].face == FaceOf(env, h, origins[j])
  {
    FoldInv(env, h, |h|);
    assert h[..|h|] == h;
    forall j | 0 <= j < |Origins(env.failed, h, |h|)|
      ensures OriginOk(h, |h|, Origins(env.failed, h, |h|)[j])
           && Fold(env, h).bubbles[j].face == FaceOf(env, h, Origins(env.failed, h, |h|)[j])
    {
      assert BubbleIs(env, h, |h|, Fold(env, h).bubbles[j], Origins(env.failed, h, |h|)[j]);
    }
  }

  // ----- Adding rows -----

  /** A bubble's name: its row, and its call if it is an agent's. */
  type Name = (nat, Option<ToolCall>)

  function CallNames(i: nat, calls: seq<ToolCall>): seq<Name> {
    if calls == [] then [] else [(i, Some(calls[0]))] + CallNames(i, calls[1..])
  }

  ghost function NamesOf(failed: set<string>, h: seq<Row>, i: nat): seq<Name>
    requires i < |h|
  {
    match h[i].sender
    case Agent(_, _) => CallNames(i, Delivered(failed, h[i]))
    case Human(_, _) => if AnyHuman(h, i) && Speaks(h[i]) then [(i, None)] else []
    case System => []
  }

  /** The names of the bubbles that come from rows `lo` to `n`. */
  ghost function Names(failed: set<string>, h: seq<Row>, lo: nat, n: nat): seq<Name>
    requires lo <= n <= |h|
  {
    if n == lo then [] else Names(failed, h, lo, n - 1) + NamesOf(failed, h, n - 1)
  }

  predicate Alive(failed: set<string>, name: Name) {
    name.1.Some? ==> name.1.value.id !in failed
  }

  ghost function Survivors(failed: set<string>, names: seq<Name>): seq<Name> {
    if names == [] then [] else (if Alive(failed, names[0]) then [names[0]] else []) + Survivors(failed, names[1..])
  }

  lemma {:induction false} CallNamesAt(i: nat, calls: seq<ToolCall>, k: nat)
    requires k < |calls|
    ensures |CallNames(i, calls)| == |calls| && CallNames(i, calls)[k] == (i, Some(calls[k]))
    decreases |calls|
  {
    if |calls| > 1 { CallNamesAt(i, calls[1..], if k == 0 then 0 else k - 1); }
  }

  lemma {:induction false} NamesOfAre(failed: set<string>, h: seq<Row>, i: nat, k: nat)
    requires i < |h| && k < |OriginsOf(failed, h, i)|
    ensures |NamesOf(failed, h, i)| == |OriginsOf(failed, h, i)|
    ensures NamesOf(failed, h, i)[k] == (OriginsOf(failed, h, i)[k].row, OriginsOf(failed, h, i)[k].call)
  {
    if h[i].sender.Agent? { CallNamesAt(i, Delivered(failed, h[i]), k); }
  }

  lemma {:induction false} SameCount(failed: set<string>, h: seq<Row>, i: nat)
    requires i < |h|
    ensures |NamesOf(failed, h, i)| == |OriginsOf(failed, h, i)|
  {
    if OriginsOf(failed, h, i) != [] { NamesOfAre(failed, h, i, 0); }
  }

  lemma {:induction false} NameAt(failed: set<string>, h: seq<Row>, n: nat, j: nat)
    requires n < |h| && |Names(failed, h, 0, n)| == |Origins(failed, h, n)| && j < |Origins(failed, h, n + 1)|
    requires j < |Origins(failed, h, n)|
             ==> Names(failed, h, 0, n)[j] == (Origins(failed, h, n)[j].row, Origins(failed, h, n)[j].call)
    ensures j < |Names(failed, h, 0, n + 1)|
    ensures Names(failed, h, 0, n + 1)[j] == (Origins(failed, h, n + 1)[j].row, Origins(failed, h, n + 1)[j].call)
  {
    var x := |Origins(failed, h, n)|;
    SameCount(failed, h, n);
    OriginAt(failed, h, n, j);
    if j >= x {
      var k := j - x;
      NamesOfAre(failed, h, n, k);
    }
  }

  lemma {:induction false} NamesCount(failed: set<string>, h: seq<Row>, n: nat)
    requires n < |h| && |Names(failed, h, 0, n)| == |Origins(failed, h, n)|
    ensures |Names(failed, h, 0, n + 1)| == |Origins(failed, h, n + 1)|
  {
    SameCount(failed, h, n);
  }

  /** Names are what tells the bubbles of the fold apart. */
  lemma {:induction false} NamesAreOrigins(failed: set<string>, h: seq<Row>, n: nat)
    requires n <= |h|
    ensures var names, origins := Names(failed, h, 0, n), Origins(failed, h, n);
      |names| == |origins| && forall j :: 0 <= j < |names| ==> names[j] == (origins[j].row, origins[j].call)
    decreases n
  {
    if n > 0 {
      var m := n - 1;
      NamesAreOrigins(failed, h, m);
      NamesCount(failed, h, m);
      forall j | 0 <= j < |Names(failed, h, 0, n)|
        ensures Names(failed, h, 0, n)[j] == (Origins(failed, h, n)[j].row, Origins(failed, h, n)[j].call)
      {
        NameAt(failed, h, m, j);
      }
    }
  }

  lemma {:induction false} SurvivorsAppend(failed: set<string>, a: seq<Name>, b: seq<Name>)
    ensures Survivors(failed, a + b) == Survivors(failed, a) + Survivors(failed, b)
    decreases |a|
  {
    if a == [] {
      assert a + b == b;
    } else {
      assert (a + b)[1..] == a[1..] + b && (a + b)[0] == a[0];
      SurvivorsAppend(failed, a[1..], b);
      JoinAssoc(if Alive(failed, a[0]) then [a[0]] else [], Survivors(failed, a[1..]), Survivors(failed, b));
    }
  }

  lemma {:induction false} SurvivingCalls(failed: set<string>, failed': set<string>, i: nat, calls: seq<ToolCall>)
    requires failed <= failed'
    ensures Survivors(failed', CallNames(i, Filter(calls, NotIn(failed))))
            == CallNames(i, Filter(calls, NotIn(failed')))
    decreases |calls|
  {
    if calls != [] {
      SurvivingCalls(failed, failed', i, calls[1..]);
      FilterCons(calls, NotIn(failed));
      FilterCons(calls, NotIn(failed'));
    }
  }

  lemma {:induction false} FilterCons<T>(s: seq<T>, keep: T -> bool)
    requires s != []
    ensures Filter(s, keep) == if keep(s[0]) then [s[0]] + Filter(s[1..], keep) else Filter(s[1..], keep)
  {
  }

  /** More failures only take bubbles of failed calls away. */
  lemma {:induction false} RowSurvives(failed: set<string>, failed': set<string>, h: seq<Row>, h': seq<Row>, i: nat)
    requires failed <= failed' && i < |h| <= |h'| && h'[..|h|] == h
    ensures NamesOf(failed', h', i) == Survivors(failed', NamesOf(failed, h, i))
  {
    assert h'[i] == h[i] && forall j :: 0 <= j < i ==> h'[j] == h[j];
    assert AnyHuman(h, i) == AnyHuman(h', i);
    if h[i].sender.Agent? { SurvivingCalls(failed, failed', i, Sends(h[i])); }
  }

  lemma {:induction false} PrefixSurvives(failed: set<string>, failed': set<string>, h: seq<Row>, h': seq<Row>, n: nat)
    requires failed <= failed' && n <= |h| <= |h'| && h'[..|h|] == h
    ensures Names(failed', h', 0, n) == Survivors(failed', Names(failed, h, 0, n))
    decreases n
  {
    if n > 0 {
      hide Names, NamesOf, Survivors;
      PrefixSurvives(failed, failed', h, h', n - 1);
      RowSurvives(failed, failed', h, h', n - 1);
      SurvivorsAppend(failed', Names(failed, h, 0, n - 1), NamesOf(failed, h, n - 1));
      NamesSnoc(failed, h, n);
      NamesSnoc(failed', h', n);
    }
  }

  lemma {:induction false} NamesSnoc(failed: set<string>, h: seq<Row>, n: nat)
    requires 0 < n <= |h|
    ensures Names(failed, h, 0, n) == Names(failed, h, 0, n - 1) + NamesOf(failed, h, n - 1)
  {
  }

  lemma {:induction false} NamesSplit(failed: set<string>, h: seq<Row>, mid: nat, n: nat)
    requires mid <= n <= |h|
    ensures Names(failed, h, 0, n) == Names(failed, h, 0, mid) + Names(failed, h, mid, n)
    decreases n
  {
    if n > mid {
      NamesSplit(failed, h, mid, n - 1);
    }
  }

  lemma {:induction false} FailuresGrow(roster: seq<Mentionable>, poster: Poster, h: seq<Row>, more: seq<Row>)
    ensures FirstPass(h, roster, poster).failed <= FirstPass(h + more, roster, poster).failed
  {
    var env := StartEnv(roster, poster);
    forall id | id in NoteRows(env, h).failed
      ensures id in NoteRows(env, h + more).failed
    {
      FailedExactly(env, h, id);
      FailedExactly(env, h + more, id);
      var i :| 0 <= i < |h| && ErrorIn(h[i], id);
      assert (h + more)[i] == h[i];
    }
  }

  /** Adding rows keeps every bubble in its place, but for those of sends the
      new rows report as failed, and puts the new ones after. */
  lemma {:induction false} AppendKeepsBubbles(roster: seq<Mentionable>, poster: Poster, h: seq<Row>, more: seq<Row>)
    ensures var failed, failed' := FirstPass(h, roster, poster).failed, FirstPass(h + more, roster, poster).failed;
      Names(failed', h + more, 0, |h + more|)
      == Survivors(failed', Names(failed, h, 0, |h|)) + Names(failed', h + more, |h|, |h + more|)
  {
    var failed, failed' := FirstPass(h, roster, poster).failed, FirstPass(h + more, roster, poster).failed;
    FailuresGrow(roster, poster, h, more);
    PrefixSurvives(failed, failed', h, h + more, |h|);
    NamesSplit(failed', h + more, |h|, |h + more|);
  }

  function NameKey(h: seq<Row>, name: Name): string
    requires name.0 < |h|
  {
    "h:" + Digits(h[name.0].seqNo) + ":" + if name.1.Some? then name.1.value.id else "user"
  }

  /** The bubbles' keys are those of the names, so adding rows moves no key. */
  lemma {:induction false} KeysAreNames(env: Env, h: seq<Row>)
    ensures var s, names := Fold(env, h), Names(env.failed, h, 0, |h|);
      |s.bubbles| == |names|
          && forall j :: 0 <= j < |names| ==> names[j].0 < |h| && s.bubbles[j].face.key == NameKey(h, names[j])
  {
    hide Fold, Names, Origins, PrefixName, Digits, HumanText, HumanName;
    BubbleList(env, h);
    NamesAreOrigins(env.failed, h, |h|);
    forall j | 0 <= j < |Names(env.failed, h, 0, |h|)|
      ensures Names(env.failed, h, 0, |h|)[j].0 < |h|
      ensures Fold(env, h).bubbles[j].face.key == NameKey(h, Names(env.failed, h, 0, |h|)[j])
    {
      assert OriginOk(h, |h|, Origins(env.failed, h, |h|)[j]);
    }
  }

  // ----- Distinct keys -----

  ghost predicate DistinctNumbers(h: seq<Row>) {
    forall i, j :: 0 <= i < j < |h| ==> h[i].seqNo != h[j].seqNo
  }

  ghost predicate DistinctCalls(calls: seq<ToolCall>) {
    forall c, d :: 0 <= c < d < |calls| ==> calls[c].id != calls[d].id
  }

  /** Row numbers are distinct, and so are the call ids of each row. */
  ghost predicate Numbered(h: seq<Row>) {
    DistinctNumbers(h) && forall i :: 0 <= i < |h| ==> DistinctCalls(h[i].body.toolCalls)
  }

  /** Names of different rows, or of different calls. */
  ghost predicate Apart(a: Name, b: Name) {
    a.0 != b.0 || (a.1.Some? && b.1.Some? && a.1.value.id != b.1.value.id)
  }

  lemma {:induction false} FilterIn<T(!new)>(s: seq<T>, keep: T -> bool)
    ensures forall x :: x in Filter(s, keep) ==> x in s
    decreases |s|
  {
    if s != [] {
      FilterIn(s[1..], keep);
      FilterCons(s, keep);
    }
  }

  lemma {:induction false} FilterKeepsDistinct(calls: seq<ToolCall>, keep: ToolCall -> bool)
    requires DistinctCalls(calls)
    ensures DistinctCalls(Filter(calls, keep))
    decreases |calls|
  {
    if calls != [] {
      var rest := Filter(calls[1..], keep);
      assert forall c, d :: 0 <= c < d < |calls[1..]|
                         ==> calls[1..][c] == calls[c + 1] && calls[1..][d] == calls[d + 1];
      FilterKeepsDistinct(calls[1..], keep);
      FilterCons(calls, keep);
      FilterIn(calls[1..], keep);
      forall d | 0 <= d < |rest|
        ensures rest[d].id != calls[0].id
      {
        assert rest[d] in calls[1..];
      }
    }
  }

  lemma {:induction false} RowNamesApart(failed: set<string>, h: seq<Row>, i: nat, j: nat, k: nat)
    requires i < |h| && DistinctCalls(h[i].body.toolCalls) && j < k < |NamesOf(failed, h, i)|
    ensures Apart(NamesOf(failed, h, i)[j], NamesOf(failed, h, i)[k])
  {
    if h[i].sender.Agent? {
      FilterKeepsDistinct(h[i].body.toolCalls, IsSend);
      FilterKeepsDistinct(Sends(h[i]), NotIn(failed));
      CallNamesCount(i, Delivered(failed, h[i]));
      CallNamesAt(i, Delivered(failed, h[i]), j);
      CallNamesAt(i, Delivered(failed, h[i]), k);
    }
  }

  lemma {:induction false} CallNamesCount(i: nat, calls: seq<ToolCall>)
    ensures |CallNames(i, calls)| == |calls|
    decreases |calls|
  {
    if calls != [] { CallNamesCount(i, calls[1..]); }
  }

  lemma {:induction false} NameRow(failed: set<string>, h: seq<Row>, i: nat, k: nat)
    requires i < |h| && k < |NamesOf(failed, h, i)|
    ensures NamesOf(failed, h, i)[k].0 == i
  {
    if h[i].sender.Agent? {
      CallNamesCount(i, Delivered(failed, h[i]));
      CallNamesAt(i, Delivered(failed, h[i]), k);
    }
  }

  lemma {:induction false} NamesBelow(failed: set<string>, h: seq<Row>, n: nat, k: nat)
    requires n <= |h| && k < |Names(failed, h, 0, n)|
    ensures Names(failed, h, 0, n)[k].0 < n
    decreases n
  {
    var before, row := Names(failed, h, 0, n - 1), NamesOf(failed, h, n - 1);
    assert Names(failed, h, 0, n) == before + row;
    if k < |before| { NamesBelow(failed, h, n - 1, k); } else { NameRow(failed, h, n - 1, k - |before|); }
  }

  lemma {:induction false} NamesApart(failed: set<string>, h: seq<Row>, n: nat, j: nat, k: nat)
    requires n <= |h| && Numbered(h) && j < k < |Names(failed, h, 0, n)|
    ensures Apart(Names(failed, h, 0, n)[j], Names(failed, h, 0, n)[k])
    decreases n
  {
    hide NamesOf, DistinctCalls;
    var before, row := Names(failed, h, 0, n - 1), NamesOf(failed, h, n - 1);
    assert Names(failed, h, 0, n) == before + row;
    if k < |before| {
      NamesApart(failed, h, n - 1, j, k);
    } else if j < |before| {
      NamesBelow(failed, h, n - 1, j);
      NameRow(failed, h, n - 1, k - |before|);
    } else {
      RowNamesApart(failed, h, n - 1, j - |before|, k - |before|);
    }
  }

  lemma {:induction false} DigitsAre(n: nat)
    ensures Digits(n) != [] && ':' !in Digits(n)
  {
    if n >= 10 { DigitsAre(n / 10); }
  }

  lemma {:induction false} DigitsTell(n: nat, m: nat)
    requires Digits(n) == Digits(m)
    ensures n == m
  {
    DigitsAre(n / 10);
    DigitsAre(m / 10);
    if n >= 10 && m >= 10 {
      assert Digits(n)[..|Digits(n)| - 1] == Digits(n / 10) && Digits(m)[..|Digits(m)| - 1] == Digits(m / 10);
      assert Digits(n)[|Digits(n)| - 1] == ('0' as int + n % 10) as char;
      assert Digits(m)[|Digits(m)| - 1] == ('0' as int + m % 10) as char;
      DigitsTell(n / 10, m / 10);
    } else {
      assert |Digits(n)| == |Digits(m)|;
      assert Digits(n)[0] == Digits(m)[0];
    }
  }

  lemma {:induction false} KeysTell(n: nat, m: nat, a: string, b: string)
    requires "h:" + Digits(n) + ":" + a == "h:" + Digits(m) + ":" + b
    ensures n == m && a == b
  {
    var x, y := Digits(n) + [':'] + a, Digits(m) + [':'] + b;
    assert x == ("h:" + Digits(n) + ":" + a)[2..] && y == ("h:" + Digits(m) + ":" + b)[2..];
    DigitsAre(n);
    DigitsAre(m);
    SameLength(Digits(n), Digits(m), a, b, ':');
    assert Digits(n) == x[..|Digits(n)|] && Digits(m) == y[..|Digits(m)|];
    DigitsTell(n, m);
    assert a == x[|Digits(n)| + 1..] && b == y[|Digits(m)| + 1..];
  }

  /** With distinct row numbers, and distinct call ids within a row, no two
      bubbles have one key. */
  lemma {:induction false} KeysAreDistinct(env: Env, h: seq<Row>, j: nat, k: nat)
    requires Numbered(h) && j < k < |Fold(env, h).bubbles|
    ensures Fold(env, h).bubbles[j].face.key != Fold(env, h).bubbles[k].face.key
  {
    hide Fold, Names, Digits;
    var names := Names(env.failed, h, 0, |h|);
    KeysAreNames(env, h);
    NamesApart(env.failed, h, |h|, j, k);
    NameKeysDiffer(h, names[j], names[k]);
  }

  lemma {:induction false} NameKeysDiffer(h: seq<Row>, a: Name, b: Name)
    requires DistinctNumbers(h) && a.0 < |h| && b.0 < |h| && Apart(a, b)
    ensures NameKey(h, a) != NameKey(h, b)
  {
    if NameKey(h, a) == NameKey(h, b) {
      KeysTell(h[a.0].seqNo, h[b.0].seqNo, if a.1.Some? then a.1.value.id else "user",
               if b.1.Some? then b.1.value.id else "user");
    }
  }

  // ----- Reasoning -----

  /** From row `i` on, either the agent delivers nothing or there is a first delivery. */
  lemma {:induction false} FirstDelivery(failed: set<string>, h: seq<Row>, a: string, i: nat, n: nat)
    requires i <= n <= |h|
    ensures Quiet(failed, h, a, i, n)
            || exists d: nat :: i <= d < n && By(h[d], a) && Delivers(failed, h[d]) && Quiet(failed, h, a, i, d)
    decreases n
  {
    if i < n {
      FirstDelivery(failed, h, a, i, n - 1);
      QuietStep(failed, h, a, i, n - 1);
    }
  }

  /** The reasoning of an agent's row has one home: the bubbles of one row of
      the same agent, or what the agent still has pending. */
  lemma {:induction false} ReasoningHasOneHome(failed: set<string>, h: seq<Row>, i: nat)
    requires i < |h| && h[i].sender.Agent?
    ensures Waits(failed, h, Who(h[i]), i, |h|) <==> !exists d: nat :: Goes(failed, h, i, d, true)
    ensures forall d: nat, d': nat :: Goes(failed, h, i, d, true) && Goes(failed, h, i, d', true) ==> d == d'
    ensures Delivers(failed, h[i]) ==> Goes(failed, h, i, i, true)
  {
    var a := Who(h[i]);
    FirstDelivery(failed, h, a, i, |h|);
    if Delivers(failed, h[i]) { DeliversSends(failed, h[i]); }
    if Reflects(failed, h, i) {
      var d: nat :| Latest(failed, h, a, d, i);
      assert Goes(failed, h, i, d, true);
    } else if !Quiet(failed, h, a, i, |h|) {
      var d: nat :| i <= d < |h| && By(h[d], a) && Delivers(failed, h[d]) && Quiet(failed, h, a, i, d);
      assert Goes(failed, h, i, d, true);
    }
  }

  /** Every bubble and every accumulator holds exactly the reasoning that goes
      there, in row order. */
  lemma {:induction false} ReasoningIsKept(env: Env, h: seq<Row>)
    ensures var s, origins := Fold(env, h), Origins(env.failed, h, |h|);
      && |s.bubbles| == |origins|
      && (forall j :: 0 <= j < |origins| && origins[j].call.Some? ==>
            s.bubbles[j].reasoning == JoinAll(h, GoesTo(env.failed, h, |h|, origins[j].row, origins[j].last)))
      && (forall a :: PendingOf(s, a).reasoning == JoinAll(h, WaitingRows(env.failed, h, |h|, a)))
  {
    FoldInv(env, h, |h|);
    assert h[..|h|] == h;
    var s, origins := Fold(env, h), Origins(env.failed, h, |h|);
    forall j | 0 <= j < |origins| && origins[j].call.Some?
      ensures s.bubbles[j].reasoning == JoinAll(h, GoesTo(env.failed, h, |h|, origins[j].row, origins[j].last))
    {
      assert BubbleIs(env, h, |h|, s.bubbles[j], origins[j]);
    }
    forall a
      ensures PendingOf(s, a).reasoning == JoinAll(h, WaitingRows(env.failed, h, |h|, a))
    {
      assert PendingOf(s, a) == PendingIs(env.failed, h, |h|, a);
    }
  }

  // ----- Tool entries -----

  /** An entry is numbered by the end of its row. */
  lemma {:induction false} SiteEarly(h: seq<Row>, n: nat, t: nat)
    requires n <= |h| && t < |Sites(h, n)|
    ensures Sites(h, n)[t].row < n && t < |Sites(h, Sites(h, n)[t].row + 1)|
    decreases n
  {
    var m := n - 1;
    SiteAt(h, m, t);
    if t < |Sites(h, m)| { SiteEarly(h, m, t); }
  }

  /** A call's entry is in the bubbles of row `d` just when `d` is the first
      row of its agent, from the call on, that delivers. */
  lemma {:induction false} ToolGoesTo(failed: set<string>, h: seq<Row>, t: nat, d: nat)
    requires t < |Sites(h, |h|)| && d < |h| && h[d].sender.Agent?
    ensures var r := Sites(h, |h|)[t].row;
      (&& r < |h|
       && (t in BubbleTools(failed, h, d) <==> r <= d && By(h[r], Who(h[d])) && Quiet(failed, h, Who(h[d]), r, d)))
  {
    SiteEarly(h, |h|, t);
    BelowIsSorted(|Sites(h, d + 1)|, ToolWaitsAt(failed, h, Sites(h, d + 1), Who(h[d]), d));
    NumberedBy(h, t, d);
  }

  lemma {:induction false} NumberedBy(h: seq<Row>, t: nat, d: nat)
    requires t < |Sites(h, |h|)| && d < |h|
    ensures t < |Sites(h, d + 1)| <==> Sites(h, |h|)[t].row <= d
    ensures t < |Sites(h, d + 1)| ==> Sites(h, d + 1)[t] == Sites(h, |h|)[t]
  {
    if t < |Sites(h, d + 1)| {
      SitesGrow(h, d + 1, |h|, t);
      SiteIsOk(h, d + 1, t);
    } else {
      NumberedLater(h, t, d, Sites(h, |h|)[t].row);
    }
  }

  lemma {:induction false} NumberedLater(h: seq<Row>, t: nat, d: nat, r: nat)
    requires t < |Sites(h, |h|)| && d < |h| && r == Sites(h, |h|)[t].row && |Sites(h, d + 1)| <= t
    ensures d < r
  {
    SiteEarly(h, |h|, t);
    if r <= d { NotBoth(h, r, d, t); }
  }

  lemma {:induction false} NotBoth(h: seq<Row>, r: nat, d: nat, t: nat)
    requires r <= d < |h|
    ensures !(|Sites(h, d + 1)| <= t < |Sites(h, r + 1)|)
  {
    SitesShrink(h, r + 1, d + 1);
  }

  lemma {:induction false} SitesShrink(h: seq<Row>, n: nat, n': nat)
    requires n <= n' <= |h|
    ensures |Sites(h, n)| <= |Sites(h, n')|
    decreases n'
  {
    if n < n' {
      SitesShrink(h, n, n' - 1);
      SitesCount(h, n' - 1);
    }
  }

  /** Each entry is of its call, and the bubbles of a row hold its entries in
      the order they were made. */
  lemma {:induction false} ToolsAreKept(env: Env, h: seq<Row>)
    ensures var s, origins := Fold(env, h), Origins(env.failed, h, |h|);
      && |s.tools| == |Sites(h, |h|)| && (forall t :: 0 <= t < |s.tools| ==> CallIs(h, Sites(h, |h|)[t], s.tools[t]))
      && |s.bubbles| == |origins|
      && (forall j :: 0 <= j < |origins| && origins[j].call.Some? ==>
            OriginOk(h, |h|, origins[j]) && s.bubbles[j].tools == BubbleTools(env.failed, h, origins[j].row))
  {
    FoldInv(env, h, |h|);
    assert h[..|h|] == h;
    var s, origins := Fold(env, h), Origins(env.failed, h, |h|);
    forall j | 0 <= j < |origins| && origins[j].call.Some?
      ensures OriginOk(h, |h|, origins[j]) && s.bubbles[j].tools == BubbleTools(env.failed, h, origins[j].row)
    {
      assert BubbleIs(env, h, |h|, s.bubbles[j], origins[j]);
    }
  }
}
