/** What a frame of the demo shows, told from the seed and the script alone:
    which posts stand in which feed, by whom and when, which rows the timeline
    has, and which badges, tiles and members there are. */
module DemoScript {
  import opened Results
  import opened DemoReducer

  // ----- The script -----

  /** The minutes jumped by the first `n` beats. */
  function Minutes(beats: seq<Beat>, n: nat): int
    requires n <= |beats|
  {
    if n == 0 then 0 else Minutes(beats, n - 1) + if beats[n - 1].Jump? then beats[n - 1].minutes else 0
  }

  /** When beat `k` happens: 22 June 2026, 09:00 UTC, 47 seconds a beat, and
      the minutes jumped before it. */
  function TimeAt(beats: seq<Beat>, k: nat): int
    requires k <= |beats|
  {
    1_782_118_800_000 + k * 47_000 + Minutes(beats, k) * 60_000
  }

  /** Who can be found after `n` beats: the seed's members, then those hired. */
  function Members(seed: Seed, beats: seq<Beat>, n: nat): seq<Mentionable>
    requires n <= |beats|
  {
    if n == 0 then seed.roster
    else Members(seed, beats, n - 1) + if beats[n - 1].Hire? then [beats[n - 1].agent] else []
  }

  /** `m` is the first member of that kind and id, if there is one. */
  ghost predicate IsMember(members: seq<Mentionable>, kind: Kind, id: string, m: Option<Mentionable>) {
    match m
    case None => forall i :: 0 <= i < |members| ==> !(members[i].kind == kind && members[i].id == id)
    case Some(v) =>
      exists i :: 0 <= i < |members| && members[i] == v && v.kind == kind && v.id == id
                  && forall j :: 0 <= j < i ==> !(members[j].kind == kind && members[j].id == id)
  }

  predicate PostsTo(beat: Beat, thread: string) {
    beat.Post? && beat.thread == thread
  }

  /** `ps` lists the posts to the thread among the first `n` beats, in order. */
  ghost predicate ArePosts(beats: seq<Beat>, thread: string, n: nat, ps: seq<nat>) {
    && n <= |beats|
    && (forall i :: 0 <= i < |ps| ==> ps[i] < n && PostsTo(beats[ps[i]], thread))
    && (forall i, j :: 0 <= i < j < |ps| ==> ps[i] < ps[j])
    && (forall k: nat :: k < n && PostsTo(beats[k], thread) ==> k in ps)
  }

  function Posts(beats: seq<Beat>, thread: string, n: nat): (ps: seq<nat>)
    requires n <= |beats|
    ensures forall i :: 0 <= i < |ps| ==> ps[i] < n && PostsTo(beats[ps[i]], thread)
  {
    if n == 0 then [] else Posts(beats, thread, n - 1) + if PostsTo(beats[n - 1], thread) then [n - 1] else []
  }

  lemma {:induction false} PostsAre(beats: seq<Beat>, thread: string, n: nat)
    requires n <= |beats|
    ensures ArePosts(beats, thread, n, Posts(beats, thread, n))
  {
    if n > 0 { PostsAre(beats, thread, n - 1); }
  }

  ghost predicate Seeded(seed: Seed, thread: string) {
    exists i :: 0 <= i < |seed.seededThreads| && seed.seededThreads[i].id == thread
  }

  /** The thread's first post becomes its root: a human's, in a thread the seed does not have. */
  ghost predicate Roots(seed: Seed, beats: seq<Beat>, thread: string, ps: seq<nat>) {
    ps != [] && ps[0] < |beats| && beats[ps[0]].Post? && beats[ps[0]].sender.kind == Human && !Seeded(seed, thread)
  }

  // ----- What a feed shows -----

  /** The bubble shows post `k`: its text and sender as known then, at its time. */
  ghost predicate ShowsPost(seed: Seed, beats: seq<Beat>, k: nat, b: Bubble) {
    k < |beats| && beats[k].Post? &&
    var beat := beats[k];
    && b.kind == beat.sender.kind && b.text == beat.text && b.ts == TimeAt(beats, k)
    && b.key == "b:" + beat.id && b.requestId == "demo:" + beat.id
    && if beat.sender.kind == Agent
       then && b.agentId == Some(beat.sender.id) && b.humanName == None && b.humanId == None && b.avatarUrl == None
            && exists m :: IsMember(Members(seed, beats, k), Agent, beat.sender.id, m)
                           && b.agentName == if m.Some? then Some(m.value.name) else None
       else && b.agentId == None && b.agentName == None
            && exists m :: IsMember(Members(seed, beats, k), Human, beat.sender.id, m)
                           && b.humanName == (if m.Some? then Some(m.value.name) else None)
                           && b.humanId == (if m.Some? then Some(m.value.id) else None)
                           && b.avatarUrl == if m.Some? then m.value.avatarUrl else None
  }

  /** The root shows post `k`; an unknown author is "you". */
  ghost predicate ShowsRoot(seed: Seed, beats: seq<Beat>, k: nat, r: Root) {
    k < |beats| && beats[k].Post? &&
    var beat := beats[k];
    && r.text == beat.text && r.ts == TimeAt(beats, k)
    && exists m :: IsMember(Members(seed, beats, k), Human, beat.sender.id, m)
                   && r.name == (if m.Some? then m.value.name else "you")
                   && r.id == beat.sender.id
                   && r.avatarUrl == if m.Some? then m.value.avatarUrl else None
  }

  /** The feed shows exactly the posts `ps`, in order, the first as its root or not. */
  ghost predicate ShowsPosts(seed: Seed, beats: seq<Beat>, thread: string, ps: seq<nat>, feed: Feed) {
    var skip := if Roots(seed, beats, thread, ps) then 1 else 0;
    && |feed.bubbles| == |ps| - skip
    && (if skip == 1 then feed.root.Some? && ShowsRoot(seed, beats, ps[0], feed.root.value) else feed.root == None)
    && forall i :: 0 <= i < |feed.bubbles| ==> ShowsPost(seed, beats, ps[i + skip], feed.bubbles[i])
  }

  ghost predicate FeedShown(seed: Seed, beats: seq<Beat>, n: nat, thread: string, feeds: map<string, Feed>)
    requires n <= |beats|
  {
    var ps := Posts(beats, thread, n);
    && (thread in feeds <==> ps != [])
    && (ps != [] ==> ShowsPosts(seed, beats, thread, ps, feeds[thread]))
  }

  // ----- The state along the script -----

  /** The clock and the members. */
  ghost predicate ClockRight(seed: Seed, beats: seq<Beat>, n: nat, s: State)
    requires n <= |beats|
  {
    && s.beatIndex == n && s.offsetMs == Minutes(beats, n) * 60_000 && s.roster == Members(seed, beats, n)
    && s.channels == seed.channels && s.locations == seed.locations && s.poster == seed.poster
  }

  /** A thread has a row when the seed gives it one or something was posted to it. */
  ghost predicate RowsExist(seed: Seed, beats: seq<Beat>, n: nat, s: State)
    requires n <= |beats|
  {
    forall thread :: HasThread(s.threads, thread) <==> Seeded(seed, thread) || Posts(beats, thread, n) != []
  }

  ghost predicate Keeps(seed: Seed, beats: seq<Beat>, n: nat, s: State)
    requires n <= |beats|
  {
    ClockRight(seed, beats, n, s) && RowsExist(seed, beats, n, s)
  }

  lemma {:induction false} FindIs(members: seq<Mentionable>, kind: Kind, id: string)
    ensures IsMember(members, kind, id, FindMember(members, kind, id))
    decreases |members|
  {
    if members != [] && !(members[0].kind == kind && members[0].id == id) {
      FindIs(members[1..], kind, id);
      var r := FindMember(members[1..], kind, id);
      assert forall i :: 1 <= i < |members| ==> members[i] == members[1..][i - 1];
      if r.Some? {
        var i :| 0 <= i < |members[1..]| && members[1..][i] == r.value && r.value.kind == kind && r.value.id == id
                 && forall j :: 0 <= j < i ==> !(members[1..][j].kind == kind && members[1..][j].id == id);
        assert members[i + 1] == r.value;
        forall j | 0 <= j < i + 1
          ensures !(members[j].kind == kind && members[j].id == id)
        {
          if j > 0 { assert members[j] == members[1..][j - 1]; }
        }
      }
    }
  }

  lemma {:induction false} BubbleShows(seed: Seed, beats: seq<Beat>, n: nat, s: State)
    requires n < |beats| && beats[n].Post? && Keeps(seed, beats, n, s)
    ensures ShowsPost(seed, beats, n, MakeBubble(s, beats[n], TsFor(s)))
  {
    var sender := beats[n].sender;
    FindIs(s.roster, sender.kind, sender.id);
    assert IsMember(Members(seed, beats, n), sender.kind, sender.id, FindMember(s.roster, sender.kind, sender.id));
  }

  /** The first post to a thread. */
  lemma {:induction false} FirstPostShown(seed: Seed, beats: seq<Beat>, n: nat, s: State, thread: string)
    requires n < |beats| && PostsTo(beats[n], thread) && Keeps(seed, beats, n, s)
    requires Posts(beats, thread, n) == [] && thread !in s.feeds
    ensures ShowsPosts(seed, beats, thread, [n], PostedFeed(s, beats[n]))
  {
    hide ShowsPost, ShowsRoot, MakeBubble, Members, TsFor;
    BubbleShows(seed, beats, n, s);
    assert HasThread(s.threads, thread) <==> Seeded(seed, thread) || Posts(beats, thread, n) != [];
    assert OpensThread(s, beats[n]) == Roots(seed, beats, thread, [n]);
    if OpensThread(s, beats[n]) { RootShows(seed, beats, n, s); }
  }

  /** A later one. */
  lemma {:induction false} NextPostShown(seed: Seed, beats: seq<Beat>, n: nat, s: State, thread: string, ps: seq<nat>)
    requires n < |beats| && PostsTo(beats[n], thread) && Keeps(seed, beats, n, s)
    requires ps == Posts(beats, thread, n) != [] && thread in s.feeds
    requires ShowsPosts(seed, beats, thread, ps, s.feeds[thread])
    ensures ShowsPosts(seed, beats, thread, ps + [n], PostedFeed(s, beats[n]))
  {
    hide ShowsPost, ShowsRoot, MakeBubble, Members, TsFor;
    BubbleShows(seed, beats, n, s);
    assert HasThread(s.threads, thread) <==> Seeded(seed, thread) || Posts(beats, thread, n) != [];
    var all, feed := ps + [n], PostedFeed(s, beats[n]);
    assert all[0] == ps[0];
    var skip := if Roots(seed, beats, thread, ps) then 1 else 0;
    forall i | 0 <= i < |feed.bubbles|
      ensures ShowsPost(seed, beats, all[i + skip], feed.bubbles[i])
    {
      if i < |feed.bubbles| - 1 { assert all[i + skip] == ps[i + skip]; }
    }
  }

  lemma {:induction false} PostShown(seed: Seed, beats: seq<Beat>, n: nat, s: State, thread: string)
    requires n < |beats| && PostsTo(beats[n], thread) && Keeps(seed, beats, n, s)
    requires FeedShown(seed, beats, n, thread, s.feeds)
    ensures FeedShown(seed, beats, n + 1, thread, Reduce(s, beats[n]).feeds)
  {
    hide ShowsPosts, Keeps, PostedFeed, PostedThreads, AddBadges, LastKey;
    var ps := Posts(beats, thread, n);
    assert Posts(beats, thread, n + 1) == ps + [n];
    if ps == [] {
      FirstPostShown(seed, beats, n, s, thread);
      assert ps + [n] == [n];
    } else {
      NextPostShown(seed, beats, n, s, thread, ps);
    }
  }

  lemma {:induction false} OthersShown(seed: Seed, beats: seq<Beat>, n: nat, s: State, thread: string)
    requires n < |beats| && !PostsTo(beats[n], thread) && FeedShown(seed, beats, n, thread, s.feeds)
    ensures FeedShown(seed, beats, n + 1, thread, Reduce(s, beats[n]).feeds)
  {
    hide ShowsPosts;
    OtherFeedsStay(s, beats[n], thread);
    assert Posts(beats, thread, n + 1) == Posts(beats, thread, n) + [] == Posts(beats, thread, n);
  }

  lemma {:induction false} RootShows(seed: Seed, beats: seq<Beat>, n: nat, s: State)
    requires n < |beats| && beats[n].Post? && Keeps(seed, beats, n, s) && OpensThread(s, beats[n])
    ensures PostedFeed(s, beats[n]).root.Some? && ShowsRoot(seed, beats, n, PostedFeed(s, beats[n]).root.value)
  {
    var sender := beats[n].sender;
    FindIs(s.roster, Human, sender.id);
    var m := FindMember(s.roster, Human, sender.id);
    assert IsMember(Members(seed, beats, n), Human, sender.id, m);
  }

  lemma {:induction false} RowsStep(seed: Seed, beats: seq<Beat>, n: nat, s: State, thread: string)
    requires n < |beats| && (HasThread(s.threads, thread) <==> Seeded(seed, thread) || Posts(beats, thread, n) != [])
    ensures HasThread(Reduce(s, beats[n]).threads, thread)
       <==> Seeded(seed, thread) || Posts(beats, thread, n + 1) != []
  {
    hide HasThread, Seeded, ApplyPost;
    if beats[n].Post? { PostGivesRow(s, beats[n], thread); }
  }

  /** After a post the thread has a row, and other threads have theirs as before. */
  lemma {:induction false} PostGivesRow(s: State, beat: Beat, thread: string)
    requires beat.Post?
    ensures HasThread(ApplyPost(s, beat).threads, thread) <==> HasThread(s.threads, thread) || thread == beat.thread
  {
    hide PostedFeed, AddBadges, LastKey, SummaryOf, TsFor;
    PostKeepsIds(s, beat);
    var s' := ApplyPost(s, beat);
    if i :| 0 <= i < |s.threads| && s.threads[i].id == thread {
      assert s'.threads[i].id == thread;
    }
    if i :| 0 <= i < |s'.threads| && s'.threads[i].id == thread && thread != beat.thread {
      assert i < |s.threads| ==> s.threads[i].id == thread;
    }
  }

  /** What a beat does to the clock and the members. */
  lemma {:induction false} BeatMoves(s: State, beat: Beat)
    ensures var s' := Reduce(s, beat);
      && s'.beatIndex == s.beatIndex + 1
      && s'.offsetMs == s.offsetMs + (if beat.Jump? then beat.minutes * 60_000 else 0)
      && s'.roster == s.roster + (if beat.Hire? then [beat.agent] else [])
      && s'.channels == s.channels && s'.locations == s.locations && s'.poster == s.poster
  {
    hide PostedFeed, PostedThreads, AddBadges, LastKey, KeyOf;
    assert s.roster + [] == s.roster;
  }

  lemma {:induction false} ClockStep(seed: Seed, beats: seq<Beat>, n: nat, s: State)
    requires n < |beats| && ClockRight(seed, beats, n, s)
    ensures ClockRight(seed, beats, n + 1, Reduce(s, beats[n]))
  {
    hide Reduce;
    BeatMoves(s, beats[n]);
  }

  lemma {:induction false} KeepsStep(seed: Seed, beats: seq<Beat>, n: nat, s: State)
    requires n < |beats| && Keeps(seed, beats, n, s)
    ensures Keeps(seed, beats, n + 1, Reduce(s, beats[n]))
  {
    hide HasThread, Posts, Seeded, ClockRight, Reduce;
    ClockStep(seed, beats, n, s);
    forall thread
      ensures HasThread(Reduce(s, beats[n]).threads, thread)
         <==> Seeded(seed, thread) || Posts(beats, thread, n + 1) != []
    {
      RowsStep(seed, beats, n, s, thread);
    }
  }

  lemma {:induction false} FrameKeeps(seed: Seed, beats: seq<Beat>, n: nat)
    requires n <= |beats|
    ensures Keeps(seed, beats, n, Frame(seed, beats, n))
  {
    hide Keeps, Reduce;
    if n == 0 {
      FirstKeeps(seed, beats);
    } else {
      FrameKeeps(seed, beats, n - 1);
      KeepsStep(seed, beats, n - 1, Frame(seed, beats, n - 1));
    }
  }

  lemma {:induction false} FirstKeeps(seed: Seed, beats: seq<Beat>)
    ensures Keeps(seed, beats, 0, Frame(seed, beats, 0))
  {
    forall thread
      ensures HasThread(seed.seededThreads, thread) <==> Seeded(seed, thread) || Posts(beats, thread, 0) != []
    {
      NoPostsYet(seed, beats, thread);
    }
  }

  lemma {:induction false} NoPostsYet(seed: Seed, beats: seq<Beat>, thread: string)
    ensures Posts(beats, thread, 0) == [] && (HasThread(seed.seededThreads, thread) <==> Seeded(seed, thread))
  {
  }

  /** In every frame of every script, each feed is exactly the thread's posts so
      far, in order, with their texts, senders, keys and times; the first is the
      root just when it is a human's and the seed has no row of the thread. */
  lemma {:induction false} FeedsAreThePosts(seed: Seed, beats: seq<Beat>, n: nat, thread: string)
    requires n <= |beats|
    ensures FeedShown(seed, beats, n, thread, Frame(seed, beats, n).feeds)
    ensures ArePosts(beats, thread, n, Posts(beats, thread, n))
  {
    hide FeedShown, Keeps, Reduce, ArePosts;
    PostsAre(beats, thread, n);
    if n > 0 {
      var s := Frame(seed, beats, n - 1);
      FeedsAreThePosts(seed, beats, n - 1, thread);
      FrameKeeps(seed, beats, n - 1);
      if PostsTo(beats[n - 1], thread) {
        PostShown(seed, beats, n - 1, s, thread);
      } else {
        OthersShown(seed, beats, n - 1, s, thread);
      }
    } else {
      NothingShown(seed, beats, thread);
    }
  }

  lemma {:induction false} NothingShown(seed: Seed, beats: seq<Beat>, thread: string)
    ensures FeedShown(seed, beats, 0, thread, Frame(seed, beats, 0).feeds)
  {
  }

  lemma {:induction false} OtherFeedsStay(s: State, beat: Beat, thread: string)
    requires !PostsTo(beat, thread)
    ensures var feeds := Reduce(s, beat).feeds;
      (thread in feeds <==> thread in s.feeds) && (thread in feeds ==> feeds[thread] == s.feeds[thread])
  {
  }

  // ----- The timeline's rows -----

  /** The first posts of threads the seed does not have, in order. */
  ghost function Opened(seed: Seed, beats: seq<Beat>, n: nat): (r: seq<nat>)
    requires n <= |beats|
    ensures forall j :: 0 <= j < |r| ==> r[j] < n && beats[r[j]].Post?
  {
    if n == 0 then []
    else
      var beat := beats[n - 1];
      Opened(seed, beats, n - 1)
      + if beat.Post? && !Seeded(seed, beat.thread) && Posts(beats, beat.thread, n - 1) == [] then [n - 1] else []
  }

  /** How many posts a thread's row counts: all but a root. */
  ghost function Replies(seed: Seed, beats: seq<Beat>, thread: string, n: nat): int
    requires n <= |beats|
  {
    var ps := Posts(beats, thread, n);
    |ps| - if Roots(seed, beats, thread, ps) then 1 else 0
  }

  ghost predicate Active(seed: Seed, beats: seq<Beat>, n: nat, row: Thread)
    requires n <= |beats|
  {
    var ps := Posts(beats, row.id, n);
    ps != [] ==> row.lastActivityAt == TimeAt(beats, ps[|ps| - 1]) && row.replyCount == Replies(seed, beats, row.id, n)
  }

  /** A row of the seed: changed only in its last activity and count. */
  ghost predicate SeedRow(seed: Seed, beats: seq<Beat>, n: nat, old': Thread, row: Thread)
    requires n <= |beats|
  {
    && row == old'.(lastActivityAt := row.lastActivityAt, replyCount := row.replyCount)
    && (Posts(beats, row.id, n) == [] ==> row == old')
    && Active(seed, beats, n, row)
  }

  /** A row opened by post `k`. */
  ghost predicate NewRow(seed: Seed, beats: seq<Beat>, n: nat, k: nat, row: Thread)
    requires n <= |beats|
  {
    k < n && beats[k].Post? &&
    var beat := beats[k];
    && row.id == beat.thread && Active(seed, beats, n, row)
    && row.channelId == (if beat.thread in seed.locations && seed.locations[beat.thread].InChannel?
                         then Some(seed.locations[beat.thread].channelId) else None)
    && row.root.snippet == beat.text && row.root.sender == beat.sender && row.root.createdAt == TimeAt(beats, k)
    && if beat.sender.kind == Agent then row.root.displayName == None && row.root.avatarUrl == None
       else exists m :: IsMember(Members(seed, beats, k), Human, beat.sender.id, m)
                        && row.root.displayName == (if m.Some? then Some(m.value.name) else None)
                        && row.root.avatarUrl == if m.Some? then m.value.avatarUrl else None
  }

  ghost predicate RowsShown(seed: Seed, beats: seq<Beat>, n: nat, rows: seq<Thread>)
    requires n <= |beats|
  {
    var seeded, starts := seed.seededThreads, Opened(seed, beats, n);
    && |rows| == |seeded| + |starts|
    && (forall i :: 0 <= i < |seeded| ==> SeedRow(seed, beats, n, seeded[i], rows[i]))
    && (forall j :: 0 <= j < |starts| ==> NewRow(seed, beats, n, starts[j], rows[|seeded| + j]))
  }

  /** What a post makes of a row of its thread. */
  lemma {:induction false} ActiveNow(seed: Seed, beats: seq<Beat>, n: nat, s: State, row: Thread)
    requires n < |beats| && PostsTo(beats[n], row.id) && Keeps(seed, beats, n, s)
    requires FeedShown(seed, beats, n + 1, row.id, Reduce(s, beats[n]).feeds)
    requires row.lastActivityAt == TsFor(s) && row.replyCount == |PostedFeed(s, beats[n]).bubbles|
    ensures Active(seed, beats, n + 1, row)
  {
    hide ShowsPost, ShowsRoot, PostedThreads, PostedFeed, AddBadges, LastKey;
    var ps := Posts(beats, row.id, n + 1);
    assert ps == Posts(beats, row.id, n) + [n];
    assert Reduce(s, beats[n]).feeds[row.id] == PostedFeed(s, beats[n]);
  }

  lemma {:induction false} SamePosts(beats: seq<Beat>, thread: string, n: nat)
    requires n < |beats| && !PostsTo(beats[n], thread)
    ensures Posts(beats, thread, n + 1) == Posts(beats, thread, n)
  {
  }

  lemma {:induction false} IdleRows(seed: Seed, beats: seq<Beat>, n: nat, k: nat, old': Thread, row: Thread)
    requires n < |beats| && !PostsTo(beats[n], row.id)
    ensures SeedRow(seed, beats, n, old', row) ==> SeedRow(seed, beats, n + 1, old', row)
    ensures NewRow(seed, beats, n, k, row) ==> NewRow(seed, beats, n + 1, k, row)
  {
    hide IsMember, Members, TimeAt, Roots;
    SamePosts(beats, row.id, n);
  }

  /** A beat that posts nothing. */
  lemma {:induction false} RowsStay(seed: Seed, beats: seq<Beat>, n: nat, rows: seq<Thread>)
    requires n < |beats| && !beats[n].Post? && RowsShown(seed, beats, n, rows)
    ensures RowsShown(seed, beats, n + 1, rows)
  {
    hide SeedRow, NewRow, Posts, Seeded;
    var seeded, starts := seed.seededThreads, Opened(seed, beats, n);
    assert Opened(seed, beats, n + 1) == starts + [] == starts;
    forall i | 0 <= i < |seeded|
      ensures SeedRow(seed, beats, n + 1, seeded[i], rows[i])
    {
      IdleRows(seed, beats, n, 0, seeded[i], rows[i]);
    }
    forall j | 0 <= j < |starts|
      ensures NewRow(seed, beats, n + 1, starts[j], rows[|seeded| + j])
    {
      IdleRows(seed, beats, n, starts[j], rows[|seeded| + j], rows[|seeded| + j]);
    }
  }

  /** One row before and after a post. */
  lemma {:induction false} RowStep(seed: Seed, beats: seq<Beat>, n: nat, s: State, k: nat, old': Thread,
                                   row: Thread, row': Thread)
    requires n < |beats| && beats[n].Post? && Keeps(seed, beats, n, s)
    requires FeedShown(seed, beats, n + 1, beats[n].thread, Reduce(s, beats[n]).feeds)
    requires row' == if row.id == beats[n].thread
                     then row.(lastActivityAt := TsFor(s), replyCount := |PostedFeed(s, beats[n]).bubbles|) else row
    ensures SeedRow(seed, beats, n, old', row) ==> SeedRow(seed, beats, n + 1, old', row')
    ensures NewRow(seed, beats, n, k, row) ==> NewRow(seed, beats, n + 1, k, row')
  {
    hide IsMember, Members, TimeAt, Keeps, FeedShown, PostedFeed, TsFor, Reduce, Active;
    if row.id == beats[n].thread {
      ActiveNow(seed, beats, n, s, row');
      assert Posts(beats, row.id, n + 1) == Posts(beats, row.id, n) + [n];
    } else {
      IdleRows(seed, beats, n, k, old', row);
    }
  }

  lemma {:induction false} RowOpens(seed: Seed, beats: seq<Beat>, n: nat, s: State)
    requires n < |beats| && beats[n].Post? && Keeps(seed, beats, n, s) && !HasThread(s.threads, beats[n].thread)
    requires FeedShown(seed, beats, n, beats[n].thread, s.feeds)
    requires FeedShown(seed, beats, n + 1, beats[n].thread, Reduce(s, beats[n]).feeds)
    ensures var rows := ApplyPost(s, beats[n]).threads; |rows| > 0 && NewRow(seed, beats, n + 1, n, rows[|rows| - 1])
  {
    hide FeedShown, IsMember, Members, AddBadges, LastKey, MakeBubble, Active;
    var beat := beats[n];
    var rows := ApplyPost(s, beat).threads;
    var row := rows[|rows| - 1];
    FindIs(s.roster, Human, beat.sender.id);
    assert HasThread(s.threads, beat.thread) <==> Seeded(seed, beat.thread) || Posts(beats, beat.thread, n) != [];
    if OpensThread(s, beat) { CountOfFirst(seed, beats, n, s); }
    ActiveNow(seed, beats, n, s, row);
  }

  /** A first post that is no root counts, one that is does not. */
  lemma {:induction false} CountOfFirst(seed: Seed, beats: seq<Beat>, n: nat, s: State)
    requires n < |beats| && beats[n].Post? && OpensThread(s, beats[n])
    requires FeedShown(seed, beats, n, beats[n].thread, s.feeds)
    requires Posts(beats, beats[n].thread, n) == []
    ensures PostedFeed(s, beats[n]).bubbles == []
  {
  }

  /** A post to a thread with a row, or without. */
  lemma {:induction false} RowsAfterPost(seed: Seed, beats: seq<Beat>, n: nat, s: State)
    requires n < |beats| && beats[n].Post? && Keeps(seed, beats, n, s) && RowsShown(seed, beats, n, s.threads)
    requires FeedShown(seed, beats, n, beats[n].thread, s.feeds)
    requires FeedShown(seed, beats, n + 1, beats[n].thread, Reduce(s, beats[n]).feeds)
    ensures RowsShown(seed, beats, n + 1, Reduce(s, beats[n]).threads)
  {
    hide SeedRow, NewRow, FeedShown, HasThread, PostedFeed, SummaryOf, AddBadges, LastKey;
    var thread, rows, rows' := beats[n].thread, s.threads, Reduce(s, beats[n]).threads;
    var seeded, starts := seed.seededThreads, Opened(seed, beats, n);
    assert HasThread(rows, thread) <==> Seeded(seed, thread) || Posts(beats, thread, n) != [];
    assert Opened(seed, beats, n + 1) == starts + if HasThread(rows, thread) then [] else [n];
    if !HasThread(rows, thread) { RowOpens(seed, beats, n, s); }
    forall i | 0 <= i < |rows|
      ensures i < |rows'| && rows'[i] == if rows[i].id == thread
        then rows[i].(lastActivityAt := TsFor(s), replyCount := |PostedFeed(s, beats[n]).bubbles|) else rows[i]
    {
      if !HasThread(rows, thread) { NotThere(rows, thread, i); }
    }
    forall i | 0 <= i < |seeded|
      ensures SeedRow(seed, beats, n + 1, seeded[i], rows'[i])
    {
      RowStep(seed, beats, n, s, 0, seeded[i], rows[i], rows'[i]);
    }
    forall j | 0 <= j < |starts|
      ensures NewRow(seed, beats, n + 1, starts[j], rows'[|seeded| + j])
    {
      RowStep(seed, beats, n, s, starts[j], rows[0], rows[|seeded| + j], rows'[|seeded| + j]);
    }
  }

  lemma {:induction false} NotThere(rows: seq<Thread>, thread: string, i: nat)
    requires i < |rows| && !HasThread(rows, thread)
    ensures rows[i].id != thread
  {
  }

  /** In every frame of every script, the rows are the seed's, then one for each
      thread first posted to, in order: each with its last activity and its
      replies, the new ones with their place and their first post. */
  lemma {:induction false} RowsAreTheThreads(seed: Seed, beats: seq<Beat>, n: nat)
    requires n <= |beats|
    ensures RowsShown(seed, beats, n, Frame(seed, beats, n).threads)
  {
    hide RowsShown, Keeps, FeedShown, Reduce, ArePosts;
    if n == 0 {
      FirstRows(seed, beats);
    } else {
      var s := Frame(seed, beats, n - 1);
      RowsAreTheThreads(seed, beats, n - 1);
      if beats[n - 1].Post? {
        FrameKeeps(seed, beats, n - 1);
        FeedsAreThePosts(seed, beats, n - 1, beats[n - 1].thread);
        FeedsAreThePosts(seed, beats, n, beats[n - 1].thread);
        RowsAfterPost(seed, beats, n - 1, s);
      } else {
        SameRows(s, beats[n - 1]);
        RowsStay(seed, beats, n - 1, s.threads);
      }
    }
  }

  lemma {:induction false} SameRows(s: State, beat: Beat)
    requires !beat.Post?
    ensures Reduce(s, beat).threads == s.threads
  {
  }

  lemma {:induction false} FirstRows(seed: Seed, beats: seq<Beat>)
    ensures RowsShown(seed, beats, 0, Frame(seed, beats, 0).threads)
  {
  }

  // ----- Tiles, the thread shown, tools and badges -----

  /** The last answer of `f` among the first `n` beats. */
  function Last<T>(f: Beat -> Option<T>, beats: seq<Beat>, n: nat): Option<T>
    requires n <= |beats|
  {
    if n == 0 then None else if f(beats[n - 1]).Some? then f(beats[n - 1]) else Last(f, beats, n - 1)
  }

  lemma {:induction false} LastIs<T(!new)>(f: Beat -> Option<T>, beats: seq<Beat>, n: nat)
    requires n <= |beats|
    ensures match Last(f, beats, n)
            case None => forall k :: 0 <= k < n ==> f(beats[k]) == None
            case Some(v) => exists k :: 0 <= k < n && f(beats[k]) == Some(v)
                                        && forall j :: k < j < n ==> f(beats[j]) == None
  {
    if n > 0 { LastIs(f, beats, n - 1); }
  }

  /** A tile is as last set, or idle from the post that asks to connect it. */
  function TileSet(catalogId: string): Beat -> Option<ConnState> {
    (beat: Beat) =>
      match beat
      case Tile(_, id, to) => if id == catalogId then Some(to) else None
      case Post(_, _, _, _, _, _, connect) =>
        if connect.Some? && connect.value.catalogId == catalogId then Some(Idle) else None
      case _ => None
  }

  function ThreadShown(): Beat -> Option<string> {
    (beat: Beat) => if beat.Post? || beat.MentionBeat? then Some(beat.thread) else None
  }

  function MetaSet(key: string): Beat -> Option<Meta> {
    (beat: Beat) => if beat.Post? && "b:" + beat.id == key then beat.meta else None
  }

  function At<T>(m: map<string, T>, k: string): Option<T> {
    if k in m then Some(m[k]) else None
  }

  /** In every frame each tile is as the script last set it, the thread shown is
      the last one posted to or mentioned in, and a bubble's reasoning and tools
      are those of the last post with its key that had any. */
  lemma {:induction false} TilesAreAsSet(seed: Seed, beats: seq<Beat>, n: nat, id: string)
    requires n <= |beats|
    ensures var s := Frame(seed, beats, n);
      && At(s.connections, id) == Last(TileSet(id), beats, n)
      && s.activeThreadId == Last(ThreadShown(), beats, n)
      && At(s.metaByKey, id) == Last(MetaSet(id), beats, n)
  {
    if n > 0 {
      hide Reduce;
      TilesAreAsSet(seed, beats, n - 1, id);
      TilesStep(Frame(seed, beats, n - 1), beats[n - 1], id);
    }
  }

  lemma {:induction false} TilesStep(s: State, beat: Beat, id: string)
    ensures var s' := Reduce(s, beat);
      && At(s'.connections, id) == (if TileSet(id)(beat).Some? then TileSet(id)(beat) else At(s.connections, id))
      && s'.activeThreadId == (if ThreadShown()(beat).Some? then ThreadShown()(beat) else s.activeThreadId)
      && At(s'.metaByKey, id) == (if MetaSet(id)(beat).Some? then MetaSet(id)(beat) else At(s.metaByKey, id))
  {
    hide PostedFeed, PostedThreads, AddBadges, LastKey;
  }

  /** The badges a beat puts on a bubble. */
  function BadgesOf(beat: Beat): seq<Badge> {
    match beat
    case Post(_, _, _, _, _, badge, connect) =>
      (if badge.Some? then [badge.value] else []) + (if connect.Some? then [Connect(connect.value)] else [])
    case MentionBeat(_, _, card) => [card]
    case _ => []
  }

  /** Beat `k` puts its badges on the bubble of this key: that of the last post
      to its thread by then, unless that one is the root. */
  ghost predicate PutsOn(seed: Seed, beats: seq<Beat>, k: nat, key: string) {
    k < |beats| && (beats[k].Post? || beats[k].MentionBeat?) &&
    var ps := Posts(beats, beats[k].thread, k + 1);
    Replies(seed, beats, beats[k].thread, k + 1) > 0 && ps != [] && key == "b:" + beats[ps[|ps| - 1]].id
  }

  ghost function BadgesAt(seed: Seed, beats: seq<Beat>, n: nat, key: string): seq<Badge>
    requires n <= |beats|
  {
    if n == 0 then []
    else BadgesAt(seed, beats, n - 1, key) + if PutsOn(seed, beats, n - 1, key) then BadgesOf(beats[n - 1]) else []
  }

  lemma {:induction false} LastKeyIs(seed: Seed, beats: seq<Beat>, n: nat, thread: string, feeds: map<string, Feed>)
    requires n <= |beats| && FeedShown(seed, beats, n, thread, feeds)
    ensures var ps := Posts(beats, thread, n);
      LastKey(feeds, thread)
      == if Replies(seed, beats, thread, n) > 0 then Some("b:" + beats[ps[|ps| - 1]].id) else None
  {
    hide ShowsRoot, IsMember, TimeAt;
    var ps := Posts(beats, thread, n);
    if ps != [] && |feeds[thread].bubbles| > 0 {
      var i := |feeds[thread].bubbles| - 1;
      assert ShowsPost(seed, beats, ps[|ps| - 1], feeds[thread].bubbles[i]);
    }
  }

  function BadgesOn(badges: map<string, seq<Badge>>, key: string): seq<Badge> {
    if key in badges then badges[key] else []
  }

  lemma {:induction false} AddBadgesOn(badges: map<string, seq<Badge>>, at: Option<string>, more: seq<Badge>,
                                       key: string)
    ensures BadgesOn(AddBadges(badges, at, more), key) == BadgesOn(badges, key) + if at == Some(key) then more else []
  {
    assert BadgesOn(badges, key) + [] == BadgesOn(badges, key);
  }

  lemma {:induction false} BadgesStep(seed: Seed, beats: seq<Beat>, n: nat, s: State, key: string)
    requires n < |beats|
    requires if beats[n].Post? || beats[n].MentionBeat?
             then FeedShown(seed, beats, n + 1, beats[n].thread, Reduce(s, beats[n]).feeds) else true
    ensures BadgesOn(Reduce(s, beats[n]).badgesByKey, key)
         == BadgesOn(s.badgesByKey, key) + if PutsOn(seed, beats, n, key) then BadgesOf(beats[n]) else []
  {
    hide FeedShown, PostedFeed, PostedThreads, LastKey, Posts, Roots, AddBadges, BadgesOn;
    var beat, feeds := beats[n], Reduce(s, beats[n]).feeds;
    if beat.Post? || beat.MentionBeat? {
      LastKeyIs(seed, beats, n + 1, beat.thread, feeds);
      assert PutsOn(seed, beats, n, key) <==> LastKey(feeds, beat.thread) == Some(key);
      AddBadgesOn(s.badgesByKey, LastKey(feeds, beat.thread), BadgesOf(beat), key);
    } else {
      assert BadgesOn(s.badgesByKey, key) + [] == BadgesOn(s.badgesByKey, key);
    }
  }

  /** In every frame a bubble has the badges of the beats that put some on it, in order. */
  lemma {:induction false} BadgesAreAsPut(seed: Seed, beats: seq<Beat>, n: nat, key: string)
    requires n <= |beats|
    ensures BadgesOn(Frame(seed, beats, n).badgesByKey, key) == BadgesAt(seed, beats, n, key)
  {
    hide Reduce, FeedShown, ArePosts, PutsOn, BadgesOf;
    if n > 0 {
      BadgesAreAsPut(seed, beats, n - 1, key);
      if beats[n - 1].Post? || beats[n - 1].MentionBeat? {
        FeedsAreThePosts(seed, beats, n, beats[n - 1].thread);
      }
      BadgesStep(seed, beats, n - 1, Frame(seed, beats, n - 1), key);
    }
  }
}
