/** What the fold of a thread promises, said about the rows alone: which
    reasoning and which tool entries go to the bubbles of which row, and which
    still wait for one. */
module FoldSpec {
  import opened Results
  import opened ChatBody
  import opened FoldModel
  import opened FoldSteps

  // ----- Rows of one agent -----

  predicate By(m: Row, a: string) {
    m.sender.Agent? && (m.sender.agent == Some(a) || (m.sender.agent == None && a == ""))
  }

  /** An agent's rows share one accumulator. */
  lemma {:induction false} ByIsWho(m: Row, a: string)
    ensures By(m, a) <==> m.sender.Agent? && Who(m) == a
  {
  }

  /** An agent's row with a send that did not fail. */
  predicate Delivers(failed: set<string>, m: Row) {
    m.sender.Agent? && Delivered(failed, m) != []
  }

  /** Agent `a` delivers nothing from row `lo` up to row `hi`. */
  ghost predicate Quiet(failed: set<string>, h: seq<Row>, a: string, lo: nat, hi: nat) {
    forall i :: lo <= i < hi && i < |h| && By(h[i], a) ==> !Delivers(failed, h[i])
  }

  /** Row `d` is the last one before `n` that delivers for `a`. */
  ghost predicate Latest(failed: set<string>, h: seq<Row>, a: string, d: nat, n: nat) {
    d < n && d < |h| && By(h[d], a) && Delivers(failed, h[d]) && Quiet(failed, h, a, d + 1, n)
  }

  ghost predicate NoCalls(h: seq<Row>, a: string, lo: nat, hi: nat) {
    forall i :: lo <= i < hi && i < |h| && By(h[i], a) ==> RealCalls(h[i]) == []
  }

  /** Row `i` only looks back: it sends nothing, its agent has delivered, and
      no call of the agent since (its own included) is still undelivered. */
  ghost predicate Reflects(failed: set<string>, h: seq<Row>, i: nat) {
    i < |h| && h[i].sender.Agent? && Sends(h[i]) == []
    && exists d: nat :: Latest(failed, h, Who(h[i]), d, i) && NoCalls(h, Who(h[i]), d + 1, i + 1)
  }

  /** The reasoning of row `i` shows in a bubble of row `d`: the one delivered
      last before when it looks back (and then in the row's last bubble only),
      else every bubble of the first row, from `i` on, that delivers. */
  ghost predicate Goes(failed: set<string>, h: seq<Row>, i: nat, d: nat, last: bool) {
    i < |h| && d < |h| && h[i].sender.Agent? && By(h[d], Who(h[i])) && Delivers(failed, h[d])
    && if Reflects(failed, h, i) then last && Latest(failed, h, Who(h[i]), d, i)
       else i <= d && Quiet(failed, h, Who(h[i]), i, d)
  }

  /** Before row `n`, the reasoning of row `i` waits for a delivery. */
  ghost predicate Waits(failed: set<string>, h: seq<Row>, a: string, i: nat, n: nat) {
    i < |h| && By(h[i], a) && !Reflects(failed, h, i) && Quiet(failed, h, a, i, n)
  }

  // ----- Numbers below a bound that a predicate keeps -----

  ghost function Below(n: nat, keep: nat -> bool): (r: seq<nat>)
    ensures forall k :: 0 <= k < |r| ==> r[k] < n
  {
    if n == 0 then [] else Below(n - 1, keep) + (if keep(n - 1) then [n - 1] else [])
  }

  lemma {:induction false} BelowIsSorted(n: nat, keep: nat -> bool)
    ensures forall j, k :: 0 <= j < k < |Below(n, keep)| ==> Below(n, keep)[j] < Below(n, keep)[k]
    ensures forall i: nat :: i in Below(n, keep) <==> i < n && keep(i)
  {
    if n > 0 { BelowIsSorted(n - 1, keep); }
  }

  lemma {:induction false} BelowSame(n: nat, keep: nat -> bool, keep': nat -> bool)
    requires forall i: nat :: i < n ==> keep(i) == keep'(i)
    ensures Below(n, keep) == Below(n, keep')
  {
    if n > 0 { BelowSame(n - 1, keep, keep'); }
  }

  lemma {:induction false} BelowNone(n: nat, more: nat, keep: nat -> bool)
    requires forall i :: n <= i < n + more ==> !keep(i)
    ensures Below(n + more, keep) == Below(n, keep)
  {
    if more > 0 { BelowNone(n, more - 1, keep); }
  }

  lemma {:induction false} BelowAll(n: nat, more: nat, keep: nat -> bool)
    requires forall i :: n <= i < n + more ==> keep(i)
    ensures Below(n + more, keep) == Below(n, keep) + Range(n, n + more)
  {
    if more > 0 {
      BelowAll(n, more - 1, keep);
      RangeSnoc(Below(n, keep), n, n + more - 1);
    } else {
      assert Range(n, n) == [];
    }
  }

  lemma {:induction false} BelowEmpty(n: nat, keep: nat -> bool)
    ensures Below(n, keep) == [] <==> forall i: nat :: i < n ==> !keep(i)
  {
    BelowIsSorted(n, keep);
    if Below(n, keep) != [] { assert Below(n, keep)[0] in Below(n, keep); }
  }

  // ----- Reasoning -----

  function Reasoning(h: seq<Row>, i: nat): string {
    if i < |h| then Thoughts(h[i]) else ""
  }

  function JoinAll(h: seq<Row>, rows: seq<nat>): string {
    if rows == [] then "" else JoinText(JoinAll(h, rows[..|rows| - 1]), Reasoning(h, rows[|rows| - 1]))
  }

  lemma {:induction false} JoinSnoc(h: seq<Row>, rows: seq<nat>, i: nat)
    ensures JoinAll(h, rows + [i]) == JoinText(JoinAll(h, rows), Reasoning(h, i))
  {
    assert (rows + [i])[..|rows|] == rows;
  }

  ghost function GoesThere(failed: set<string>, h: seq<Row>, d: nat, last: bool): nat -> bool {
    (i: nat) => Goes(failed, h, i, d, last)
  }

  ghost function WaitsAt(failed: set<string>, h: seq<Row>, a: string, n: nat): nat -> bool {
    (i: nat) => Waits(failed, h, a, i, n)
  }

  /** The rows, among the first `n`, whose reasoning a bubble of row `d` holds. */
  ghost function GoesTo(failed: set<string>, h: seq<Row>, n: nat, d: nat, last: bool): seq<nat> {
    Below(n, GoesThere(failed, h, d, last))
  }

  ghost function WaitingRows(failed: set<string>, h: seq<Row>, n: nat, a: string): seq<nat> {
    Below(n, WaitsAt(failed, h, a, n))
  }

  // ----- Tool entries -----

  /** A call that gets an entry: its row, and its place among the row's own calls. */
  datatype Site = Site(row: nat, pos: nat)

  function SitesOf(h: seq<Row>, i: nat): seq<Site>
    requires i < |h|
  {
    if h[i].sender.Agent? then seq(|RealCalls(h[i])|, (c: nat) => Site(i, c)) else []
  }

  /** The calls of the first `n` rows, in row then call order. */
  function Sites(h: seq<Row>, n: nat): seq<Site>
    requires n <= |h|
  {
    if n == 0 then [] else Sites(h, n - 1) + SitesOf(h, n - 1)
  }

  ghost predicate SiteOk(h: seq<Row>, n: nat, site: Site) {
    site.row < n && site.row < |h| && h[site.row].sender.Agent? && site.pos < |RealCalls(h[site.row])|
  }

  lemma {:induction false} SiteAt(h: seq<Row>, n: nat, t: nat)
    requires n < |h| && t < |Sites(h, n + 1)|
    ensures Sites(h, n + 1)[t] == if t < |Sites(h, n)| then Sites(h, n)[t] else SitesOf(h, n)[t - |Sites(h, n)|]
    ensures t >= |Sites(h, n)|
            ==> h[n].sender.Agent? && t - |Sites(h, n)| < |RealCalls(h[n])|
                && Sites(h, n + 1)[t] == Site(n, t - |Sites(h, n)|)
  {
  }

  lemma {:induction false} SitesCount(h: seq<Row>, n: nat)
    requires n < |h|
    ensures |Sites(h, n + 1)| == |Sites(h, n)| + if h[n].sender.Agent? then |RealCalls(h[n])| else 0
  {
  }

  lemma {:induction false} SiteIsOk(h: seq<Row>, n: nat, t: nat)
    requires n <= |h| && t < |Sites(h, n)|
    ensures SiteOk(h, n, Sites(h, n)[t])
    decreases n
  {
    SiteAt(h, n - 1, t);
    if t < |Sites(h, n - 1)| { SiteIsOk(h, n - 1, t); }
  }

  lemma {:induction false} SitesGrow(h: seq<Row>, n: nat, n': nat, t: nat)
    requires n <= n' <= |h| && t < |Sites(h, n)|
    ensures t < |Sites(h, n')| && Sites(h, n')[t] == Sites(h, n)[t]
    decreases n'
  {
    if n < n' {
      SitesGrow(h, n, n' - 1, t);
      SitesCount(h, n' - 1);
      SiteAt(h, n' - 1, t);
    }
  }

  /** A row with calls has a site. */
  lemma {:induction false} SiteOfRow(h: seq<Row>, n: nat, q: nat)
    requires q < n <= |h| && h[q].sender.Agent? && RealCalls(h[q]) != []
    ensures |Sites(h, q)| < |Sites(h, n)| && Sites(h, n)[|Sites(h, q)|] == Site(q, 0)
  {
    SitesCount(h, q);
    SiteAt(h, q, |Sites(h, q)|);
    SitesGrow(h, q + 1, n, |Sites(h, q)|);
  }

  /** Entry `t`, made by `a`, is not in a bubble before row `n`. */
  ghost predicate ToolWaits(failed: set<string>, h: seq<Row>, sites: seq<Site>, a: string, n: nat, t: nat) {
    t < |sites| && sites[t].row < |h| && By(h[sites[t].row], a) && Quiet(failed, h, a, sites[t].row, n)
  }

  ghost function ToolWaitsAt(failed: set<string>, h: seq<Row>, sites: seq<Site>, a: string, n: nat): nat -> bool {
    (t: nat) => ToolWaits(failed, h, sites, a, n, t)
  }

  ghost function WaitingTools(failed: set<string>, h: seq<Row>, n: nat, a: string): seq<nat>
    requires n <= |h|
  {
    Below(|Sites(h, n)|, ToolWaitsAt(failed, h, Sites(h, n), a, n))
  }

  /** The entries of the agent's calls, up to row `d` included, that no row before `d` delivered. */
  ghost function BubbleTools(failed: set<string>, h: seq<Row>, d: nat): seq<nat>
    requires d < |h| && h[d].sender.Agent?
  {
    Below(|Sites(h, d + 1)|, ToolWaitsAt(failed, h, Sites(h, d + 1), Who(h[d]), d))
  }

  lemma {:induction false} QuietStep(failed: set<string>, h: seq<Row>, a: string, lo: nat, n: nat)
    requires n < |h|
    ensures Quiet(failed, h, a, lo, n + 1)
            <==> Quiet(failed, h, a, lo, n) && (lo <= n && By(h[n], a) ==> !Delivers(failed, h[n]))
  {
  }

  /** With the calls of row `n`, what waited is what a bubble of the row takes. */
  lemma {:induction false} ToolsSoFarAre(failed: set<string>, h: seq<Row>, n: nat, x: nat, waiting: seq<nat>)
    requires n < |h| && h[n].sender.Agent? && x == |Sites(h, n)| && waiting == WaitingTools(failed, h, n, Who(h[n]))
    ensures BubbleTools(failed, h, n) == waiting + Range(x, x + |RealCalls(h[n])|)
  {
    var keep, before := ToolWaitsAt(failed, h, Sites(h, n + 1), Who(h[n]), n),
        ToolWaitsAt(failed, h, Sites(h, n), Who(h[n]), n);
    SitesCount(h, n);
    forall t: nat | t < |Sites(h, n + 1)|
      ensures if t < x then keep(t) == before(t) else keep(t)
    {
      SiteAt(h, n, t);
    }
    BelowAll(x, |RealCalls(h[n])|, keep);
    BelowSame(x, keep, before);
  }

  /** After a delivery nothing of the agent waits; otherwise all still does. */
  lemma {:induction false} WaitingToolsStep(failed: set<string>, h: seq<Row>, n: nat)
    requires n < |h| && h[n].sender.Agent?
    ensures WaitingTools(failed, h, n + 1, Who(h[n])) == if Delivers(failed, h[n]) then []
                                                         else BubbleTools(failed, h, n)
  {
    var a, all := Who(h[n]), Sites(h, n + 1);
    var after, now := ToolWaitsAt(failed, h, all, a, n + 1), ToolWaitsAt(failed, h, all, a, n);
    forall t: nat | t < |all|
      ensures after(t) == (now(t) && !Delivers(failed, h[n]))
    {
      SiteIsOk(h, n + 1, t);
      QuietStep(failed, h, a, all[t].row, n);
    }
    if Delivers(failed, h[n]) { BelowEmpty(|all|, after); } else { BelowSame(|all|, after, now); }
  }

  /** A row of someone else changes nothing that waits. */
  lemma {:induction false} WaitingToolsOthers(failed: set<string>, h: seq<Row>, n: nat, a: string)
    requires n < |h| && !By(h[n], a)
    ensures WaitingTools(failed, h, n + 1, a) == WaitingTools(failed, h, n, a)
  {
    hide By, Quiet, Delivers;
    var x, all := |Sites(h, n)|, Sites(h, n + 1);
    var after, now := ToolWaitsAt(failed, h, all, a, n + 1), ToolWaitsAt(failed, h, Sites(h, n), a, n);
    forall t: nat | t < |all|
      ensures if t < x then after(t) == now(t) else !after(t)
    {
      SiteAt(h, n, t);
      QuietStep(failed, h, a, all[t].row, n);
    }
    BelowNone(x, |all| - x, after);
    BelowSame(x, after, now);
  }

  lemma {:induction false} WaitingRowsStep(failed: set<string>, h: seq<Row>, n: nat, a: string)
    requires n < |h|
    ensures WaitingRows(failed, h, n + 1, a)
         == if By(h[n], a) && Delivers(failed, h[n]) then []
            else if By(h[n], a) && !Reflects(failed, h, n) then WaitingRows(failed, h, n, a) + [n]
            else WaitingRows(failed, h, n, a)
  {
    var after, now := WaitsAt(failed, h, a, n + 1), WaitsAt(failed, h, a, n);
    forall i: nat | i <= n
      ensures after(i) == (now(i) && !(By(h[n], a) && Delivers(failed, h[n])))
    {
      QuietStep(failed, h, a, i, n);
    }
    if By(h[n], a) && Delivers(failed, h[n]) { BelowEmpty(n + 1, after); } else { BelowSame(n, after, now); }
  }
}
