/** Cursor paging over a list newest first: what a reader who follows the
    cursors to the end gets to see. */
module Paging {
  import opened Results

  datatype Call = Call(id: string, startedAt: int)
  datatype Page = Page(items: seq<Call>, nextCursor: Option<int>)

  /** The page size asked for: absent, zero or unreadable is 50, then within 1 and 100. */
  function Limit(asked: Option<int>): (n: nat)
    ensures 1 <= n <= 100
  {
    var wanted := if asked.None? || asked.value == 0 then 50 else asked.value;
    if wanted < 1 then 1 else if wanted > 100 then 100 else wanted
  }

  function Older(all: seq<Call>, before: int): seq<Call> {
    if all == [] then [] else (if all[0].startedAt < before then [all[0]] else []) + Older(all[1..], before)
  }

  function Filtered(all: seq<Call>, before: Option<int>): seq<Call> {
    if before.Some? then Older(all, before.value) else all
  }

  function BuildPage(all: seq<Call>, before: Option<int>, limit: nat): Page
    requires limit >= 1
  {
    var filtered := Filtered(all, before);
    if |filtered| > limit then Page(filtered[..limit], Some(filtered[limit - 1].startedAt)) else Page(filtered, None)
  }

  lemma {:induction false} LimitIs(asked: Option<int>)
    ensures asked == None || asked == Some(0) ==> Limit(asked) == 50
    ensures asked.Some? && 1 <= asked.value <= 100 ==> Limit(asked) == asked.value
    ensures asked.Some? && asked.value < 0 ==> Limit(asked) == 1
    ensures asked.Some? && asked.value > 100 ==> Limit(asked) == 100
  {
  }

  /** A page is the newest calls before the cursor, as many as fit. There is a
      next one just when some were left, and its cursor is the time of the last
      call shown. */
  lemma {:induction false} PageIs(all: seq<Call>, before: Option<int>, limit: nat)
    requires limit >= 1
    ensures var page, left := BuildPage(all, before, limit), Filtered(all, before);
      && |page.items| <= limit && page.items <= left && (|page.items| < limit ==> page.items == left)
      && (page.nextCursor == None <==> page.items == left)
      && (page.nextCursor.Some? ==> page.items != []
                                    && page.nextCursor.value == page.items[|page.items| - 1].startedAt)
      && forall c :: c in left <==> c in all && (before == None || c.startedAt < before.value)
  {
    if before.Some? { OlderHolds(all, before.value); }
  }

  lemma {:induction false} OlderHolds(all: seq<Call>, before: int)
    ensures |Older(all, before)| <= |all| && forall c :: c in Older(all, before) <==> c in all && c.startedAt < before
    decreases |all|
  {
    if all != [] {
      OlderHolds(all[1..], before);
      assert all == [all[0]] + all[1..];
    }
  }

  lemma {:induction false} OlderTwice(all: seq<Call>, before: int, before': int)
    requires before' <= before
    ensures Older(Older(all, before), before') == Older(all, before')
    decreases |all|
  {
    if all != [] {
      OlderTwice(all[1..], before, before');
      if all[0].startedAt < before {
        assert Older(all, before)[1..] == Older(all[1..], before);
      } else {
        assert Older(all, before) == Older(all[1..], before);
      }
    }
  }

  lemma {:induction false} OlderLeavesOut(all: seq<Call>, k: nat, before: int)
    requires k < |all| && all[k].startedAt >= before
    ensures |Older(all, before)| < |all|
    decreases |all|
  {
    if k == 0 { OlderHolds(all[1..], before); } else { OlderLeavesOut(all[1..], k - 1, before); }
  }

  lemma {:induction false} CursorMoves(all: seq<Call>, before: Option<int>, limit: nat)
    requires limit >= 1 && BuildPage(all, before, limit).nextCursor.Some?
    ensures var next := BuildPage(all, before, limit).nextCursor.value;
      && (before.Some? ==> next < before.value)
      && Filtered(all, Some(next)) == Older(Filtered(all, before), next)
      && |Filtered(all, Some(next))| < |Filtered(all, before)|
  {
    var filtered := Filtered(all, before);
    var next := filtered[limit - 1].startedAt;
    OlderLeavesOut(filtered, limit - 1, next);
    if before.Some? {
      OlderHolds(all, before.value);
      assert filtered[limit - 1] in filtered;
      OlderTwice(all, before.value, next);
    }
  }

  /** Everything seen by following the cursors from `before` to the end. */
  function Walk(all: seq<Call>, before: Option<int>, limit: nat): seq<Call>
    requires limit >= 1
    decreases |Filtered(all, before)|
  {
    var page := BuildPage(all, before, limit);
    if page.nextCursor.None? then page.items
    else CursorMoves(all, before, limit); page.items + Walk(all, page.nextCursor, limit)
  }

  /** Asking for page after page of any size ends, and gathers `Walk`. */
  method WalkPages(all: seq<Call>, asked: Option<int>) returns (seen: seq<Call>)
    ensures seen == Walk(all, None, Limit(asked))
  {
    var limit := Limit(asked);
    var page := BuildPage(all, None, limit);
    ghost var before: Option<int> := None;
    seen := page.items;
    while page.nextCursor.Some?
      invariant page == BuildPage(all, before, limit)
      invariant Walk(all, None, limit) == seen + if page.nextCursor.Some? then Walk(all, page.nextCursor, limit) else []
      decreases |Filtered(all, before)|
    {
      CursorMoves(all, before, limit);
      before := page.nextCursor;
      ghost var sofar := seen;
      page := BuildPage(all, page.nextCursor, limit);
      seen := seen + page.items;
      assert Walk(all, before, limit) == page.items + if page.nextCursor.Some? then Walk(all, page.nextCursor, limit)
                                                      else [];
      JoinAssoc(sofar, page.items, if page.nextCursor.Some? then Walk(all, page.nextCursor, limit) else []);
    }
  }

  // ----- Nothing skipped -----

  ghost predicate NewestFirst(s: seq<Call>) {
    forall i, j :: 0 <= i < j < |s| ==> s[i].startedAt >= s[j].startedAt
  }

  /** No page ends between two calls of the same time. */
  predicate CleanCuts(s: seq<Call>, limit: nat)
    requires limit >= 1
    decreases |s|
  {
    |s| <= limit || (s[limit - 1].startedAt > s[limit].startedAt && CleanCuts(s[limit..], limit))
  }

  lemma {:induction false} OlderSuffix(s: seq<Call>, k: nat, before: int)
    requires k <= |s| && NewestFirst(s)
    requires forall i :: 0 <= i < k ==> s[i].startedAt >= before
    ensures Older(s, before) == Older(s[k..], before)
    decreases k
  {
    if k > 0 {
      assert NewestFirst(s[1..]);
      OlderSuffix(s[1..], k - 1, before);
      assert s[1..][k - 1..] == s[k..];
      assert Older(s, before) == Older(s[1..], before);
    } else {
      assert s[0..] == s;
    }
  }

  lemma {:induction false} OlderAll(s: seq<Call>, before: int)
    requires forall i :: 0 <= i < |s| ==> s[i].startedAt < before
    ensures Older(s, before) == s
    decreases |s|
  {
    if s != [] { OlderAll(s[1..], before); }
  }

  lemma {:induction false} OlderNewestFirst(s: seq<Call>, before: int)
    requires NewestFirst(s)
    ensures NewestFirst(Older(s, before))
    decreases |s|
  {
    if s != [] {
      assert NewestFirst(s[1..]);
      OlderNewestFirst(s[1..], before);
      OlderHolds(s[1..], before);
      var rest := Older(s[1..], before);
      forall j | 0 <= j < |rest|
        ensures s[0].startedAt >= rest[j].startedAt
      {
        assert rest[j] in s[1..];
      }
    }
  }

  lemma {:induction false} FilteredNewestFirst(all: seq<Call>, before: Option<int>)
    requires NewestFirst(all)
    ensures NewestFirst(Filtered(all, before))
  {
    if before.Some? { OlderNewestFirst(all, before.value); }
  }

  /** What the next pages choose from: what the page left, but for calls of its last time. */
  lemma {:induction false} NextChoice(s: seq<Call>, limit: nat)
    requires 1 <= limit < |s| && NewestFirst(s)
    ensures var next := s[limit - 1].startedAt;
      && Older(s, next) == Older(s[limit..], next) && |Older(s, next)| <= |s| - limit
      && (Older(s, next) == s[limit..] <==> next > s[limit].startedAt)
      && (next <= s[limit].startedAt ==> |Older(s, next)| < |s| - limit)
  {
    var next := s[limit - 1].startedAt;
    OlderSuffix(s, limit, next);
    OlderHolds(s[limit..], next);
    if next > s[limit].startedAt {
      OlderAll(s[limit..], next);
    } else {
      OlderLeavesOut(s[limit..], 0, next);
    }
  }

  lemma {:induction false} WalkIsShort(all: seq<Call>, before: Option<int>, limit: nat)
    requires limit >= 1 && NewestFirst(all)
    ensures |Walk(all, before, limit)| <= |Filtered(all, before)|
    decreases |Filtered(all, before)|
  {
    var page := BuildPage(all, before, limit);
    if page.nextCursor.Some? {
      FilteredNewestFirst(all, before);
      CursorMoves(all, before, limit);
      WalkIsShort(all, page.nextCursor, limit);
      NextChoice(Filtered(all, before), limit);
    }
  }

  lemma {:induction false} SameRest(a: seq<Call>, b: seq<Call>, s: seq<Call>, k: nat)
    requires k <= |s| && a == s[..k]
    ensures a + b == s <==> b == s[k..]
  {
    assert s[..k] + s[k..] == s;
    if a + b == s { assert (a + b)[k..] == b; }
  }

  /** Following the cursors shows every call just when no page ends inside a
      group of calls of one time: the strict cursor skips the rest of a group. */
  lemma {:induction false} WalkShowsAll(all: seq<Call>, before: Option<int>, limit: nat)
    requires limit >= 1 && NewestFirst(all)
    ensures Walk(all, before, limit) == Filtered(all, before) <==> CleanCuts(Filtered(all, before), limit)
    decreases |Filtered(all, before)|
  {
    var s, page := Filtered(all, before), BuildPage(all, before, limit);
    if page.nextCursor.Some? {
      FilteredNewestFirst(all, before);
      CursorMoves(all, before, limit);
      NextChoice(s, limit);
      WalkShowsAll(all, page.nextCursor, limit);
      WalkIsShort(all, page.nextCursor, limit);
      SameRest(page.items, Walk(all, page.nextCursor, limit), s, limit);
    }
  }

  /** With distinct times, every call is shown once, in order. */
  lemma {:induction false} DistinctTimesShowAll(all: seq<Call>, limit: nat)
    requires limit >= 1 && forall i, j :: 0 <= i < j < |all| ==> all[i].startedAt > all[j].startedAt
    ensures Walk(all, None, limit) == all
  {
    CutsOfDistinct(all, limit);
    WalkShowsAll(all, None, limit);
  }

  lemma {:induction false} CutsOfDistinct(s: seq<Call>, limit: nat)
    requires limit >= 1 && forall i, j :: 0 <= i < j < |s| ==> s[i].startedAt > s[j].startedAt
    ensures CleanCuts(s, limit)
    decreases |s|
  {
    if |s| > limit { CutsOfDistinct(s[limit..], limit); }
  }
}
