/** The pure state machine of the scripted playback: one beat at a time is
    folded onto the view state. Timestamps are milliseconds. */
module DemoReducer {
  import opened Results

  datatype Kind = Human | Agent

  datatype Mentionable = Mentionable(kind: Kind, id: string, name: string, avatarUrl: Option<string>)

  datatype Location = InChannel(channelId: string, name: string) | Dm(counterpartId: string)

  datatype ConnState = Idle | Connecting | Connected

  datatype WireRequest = WireRequest(catalogId: string, displayName: string)

  datatype Badge =
    | Trigger(caption: string, at: string)
    | Guardrail(policy: string, blocked: string, approver: string)
    | Mention(from: string, text: string)
    | Connect(req: WireRequest)

  datatype Meta = Meta(reasoning: Option<string>, tools: seq<string>)

  datatype SenderRef = SenderRef(kind: Kind, id: string)

  datatype Beat =
    | Post(id: string, thread: string, sender: SenderRef, text: string,
           meta: Option<Meta>, badge: Option<Badge>, connect: Option<WireRequest>)
    | Tile(id: string, catalogId: string, to: ConnState)
    | Hire(id: string, agent: Mentionable)
    | MentionBeat(id: string, thread: string, card: Badge)
    | Jump(id: string, minutes: int)

  datatype Bubble = Bubble(kind: Kind, key: string, requestId: string, agentId: Option<string>,
                           agentName: Option<string>,
                           humanName: Option<string>, humanId: Option<string>, avatarUrl: Option<string>, ts: int,
                               text: string)

  datatype Root = Root(name: string, id: string, avatarUrl: Option<string>, ts: int, text: string)

  datatype Feed = Feed(root: Option<Root>, bubbles: seq<Bubble>)

  datatype RootSummary = RootSummary(snippet: string, sender: SenderRef, createdAt: int,
                                     displayName: Option<string>, avatarUrl: Option<string>)

  datatype Thread = Thread(id: string, channelId: Option<string>, lastActivityAt: int, root: RootSummary,
                           replyCount: nat)

  datatype State = State(
    channels: seq<string>,
    roster: seq<Mentionable>,
    threads: seq<Thread>,
    locations: map<string, Location>,
    feeds: map<string, Feed>,
    metaByKey: map<string, Meta>,
    badgesByKey: map<string, seq<Badge>>,
    connections: map<string, ConnState>,
    activeThreadId: Option<string>,
    poster: Mentionable,
    offsetMs: int,
    beatIndex: nat)

  datatype Seed = Seed(poster: Mentionable, channels: seq<string>, roster: seq<Mentionable>,
                       locations: map<string, Location>, seededThreads: seq<Thread>)

  /** 22 June 2026, 09:00 UTC. */
  const BASE_MS := 1_782_118_800_000
  const STEP_MS := 47_000

  function TsFor(s: State): int {
    BASE_MS + s.beatIndex * STEP_MS + s.offsetMs
  }

  /** The first roster entry of that kind with that id. */
  function FindMember(roster: seq<Mentionable>, kind: Kind, id: string): Option<Mentionable> {
    if roster == [] then None
    else if roster[0].kind == kind && roster[0].id == id then Some(roster[0])
    else FindMember(roster[1..], kind, id)
  }

  function NameOf(m: Option<Mentionable>): Option<string> {
    match m case None => None case Some(v) => Some(v.name)
  }

  function LastKey(feeds: map<string, Feed>, thread: string): Option<string> {
    if thread !in feeds || feeds[thread].bubbles == [] then None
    else Some(feeds[thread].bubbles[|feeds[thread].bubbles| - 1].key)
  }

  function Initial(seed: Seed): State {
    State(seed.channels, seed.roster, seed.seededThreads, seed.locations, map[], map[], map[], map[], None, seed.poster,
        0, 0)
  }

  function KeyOf(id: string): string {
    "b:" + id
  }

  function MakeBubble(s: State, beat: Beat, ts: int): Bubble
    requires beat.Post?
  {
    var sender := beat.sender;
    var h := if sender.kind.Agent? then None else FindMember(s.roster, Human, sender.id);
    Bubble(
      sender.kind,
      KeyOf(beat.id),
      "demo:" + beat.id,
      if sender.kind.Agent? then Some(sender.id) else None,
      if sender.kind.Agent? then NameOf(FindMember(s.roster, Agent, sender.id)) else None,
      NameOf(h),
      if h.Some? then Some(h.value.id) else None,
      if h.Some? then h.value.avatarUrl else None,
      ts,
      beat.text)
  }

  function SummaryOf(s: State, beat: Beat, ts: int): RootSummary
    requires beat.Post?
  {
    var h := if beat.sender.kind.Agent? then None else FindMember(s.roster, Human, beat.sender.id);
    RootSummary(beat.text, beat.sender, ts, NameOf(h), if h.Some? then h.value.avatarUrl else None)
  }

  predicate HasThread(threads: seq<Thread>, id: string) {
    exists i :: 0 <= i < |threads| && threads[i].id == id
  }

  function BumpThread(threads: seq<Thread>, id: string, ts: int, count: nat): (r: seq<Thread>)
    ensures |r| == |threads|
    ensures forall i :: 0 <= i < |r| ==>
      r[i] == if threads[i].id == id then threads[i].(lastActivityAt := ts, replyCount := count) else threads[i]
  {
    seq(|threads|, i requires 0 <= i < |threads| =>
      if threads[i].id == id then threads[i].(lastActivityAt := ts, replyCount := count) else threads[i])
  }

  function AddBadges(m: map<string, seq<Badge>>, key: Option<string>, badges: seq<Badge>): map<string, seq<Badge>> {
    if key.None? || badges == [] then m
    else m[key.value := (if key.value in m then m[key.value] else []) + badges]
  }

  /** Whether this post opens its thread as a human root. */
  predicate OpensThread(s: State, beat: Beat)
    requires beat.Post?
  {
    && !HasThread(s.threads, beat.thread)
    && (beat.thread in s.feeds ==> s.feeds[beat.thread].bubbles == [])
    && beat.sender.kind.Human?
  }

  function PostedFeed(s: State, beat: Beat): Feed
    requires beat.Post?
  {
    var ts := TsFor(s);
    var feed := if beat.thread in s.feeds then s.feeds[beat.thread] else Feed(None, []);
    var bubble := MakeBubble(s, beat, ts);
    if OpensThread(s, beat) then
      Feed(Some(Root(if bubble.humanName.Some? then bubble.humanName.value else "you",
                     if bubble.humanId.Some? then bubble.humanId.value else beat.sender.id,
                     bubble.avatarUrl, ts, beat.text)),
           feed.bubbles)
    else feed.(bubbles := feed.bubbles + [bubble])
  }

  function PostedThreads(s: State, beat: Beat): seq<Thread>
    requires beat.Post?
  {
    var ts := TsFor(s);
    var count := |PostedFeed(s, beat).bubbles|;
    if HasThread(s.threads, beat.thread) then BumpThread(s.threads, beat.thread, ts, count)
    else
      var channel := if beat.thread in s.locations && s.locations[beat.thread].InChannel?
                     then Some(s.locations[beat.thread].channelId) else None;
      s.threads + [Thread(beat.thread, channel, ts, SummaryOf(s, beat, ts), if OpensThread(s, beat) then 0 else count)]
  }

  function ApplyPost(s: State, beat: Beat): State
    requires beat.Post?
  {
    var feeds := s.feeds[beat.thread := PostedFeed(s, beat)];
    s.(threads := PostedThreads(s, beat),
       feeds := feeds,
       metaByKey := if beat.meta.Some? then s.metaByKey[KeyOf(beat.id) := beat.meta.value] else s.metaByKey,
       badgesByKey := AddBadges(s.badgesByKey, LastKey(feeds, beat.thread),
                                (if beat.badge.Some? then [beat.badge.value] else [])
                                + (if beat.connect.Some? then [Connect(beat.connect.value)] else [])),
       connections := if beat.connect.Some? then s.connections[beat.connect.value.catalogId := Idle] else s.connections,
       activeThreadId := Some(beat.thread),
       beatIndex := s.beatIndex + 1)
  }

  function Reduce(s: State, beat: Beat): State {
    match beat
    case Post(_, _, _, _, _, _, _) => ApplyPost(s, beat)
    case Tile(_, catalogId, to) => s.(connections := s.connections[catalogId := to], beatIndex := s.beatIndex + 1)
    case Hire(_, agent) => s.(roster := s.roster + [agent], beatIndex := s.beatIndex + 1)
    case MentionBeat(_, thread, badge) =>
      s.(badgesByKey := AddBadges(s.badgesByKey, LastKey(s.feeds, thread), [badge]),
         activeThreadId := Some(thread),
         beatIndex := s.beatIndex + 1)
    case Jump(_, minutes) => s.(offsetMs := s.offsetMs + minutes * 60_000, beatIndex := s.beatIndex + 1)
  }

  predicate IsGate(beat: Beat) {
    beat.Post? && beat.connect.Some?
  }

  /** The state after the first `n` beats. */
  function Frame(seed: Seed, beats: seq<Beat>, n: nat): State
    requires n <= |beats|
  {
    if n == 0 then Initial(seed) else Reduce(Frame(seed, beats, n - 1), beats[n - 1])
  }

  function TerminalState(seed: Seed, beats: seq<Beat>): State {
    Frame(seed, beats, |beats|)
  }

  // ----- Invariants over every script -----

  /** Bubble `i` of `thread`. */
  predicate At(feeds: map<string, Feed>, thread: string, i: int) {
    thread in feeds && 0 <= i < |feeds[thread].bubbles|
  }

  ghost predicate KeysUnique(feeds: map<string, Feed>) {
    forall t, i, u, j :: At(feeds, t, i) && At(feeds, u, j) && (t != u || i != j)
      ==> feeds[t].bubbles[i].key != feeds[u].bubbles[j].key
  }

  /** Keys come from the ids of beats in the first `n`. */
  ghost predicate KeysFrom(feeds: map<string, Feed>, beats: seq<Beat>, n: nat)
    requires n <= |beats|
  {
    forall t, i :: At(feeds, t, i) ==> exists k :: 0 <= k < n && feeds[t].bubbles[i].key == KeyOf(beats[k].id)
  }

  /** A feed is strictly increasing in time, its root first, all before `now`. */
  ghost predicate FeedOrdered(feed: Feed, now: int) {
    && (forall i, j :: 0 <= i < j < |feed.bubbles| ==> feed.bubbles[i].ts < feed.bubbles[j].ts)
    && (forall i :: 0 <= i < |feed.bubbles| ==> feed.bubbles[i].ts < now)
    && (feed.root.Some? ==> feed.root.value.ts < now)
    && (feed.root.Some? ==> forall i :: 0 <= i < |feed.bubbles| ==> feed.root.value.ts < feed.bubbles[i].ts)
  }

  ghost predicate ThreadsUnique(threads: seq<Thread>) {
    forall i, j :: 0 <= i < j < |threads| ==> threads[i].id != threads[j].id
  }

  /** Every thread with a feed has a row, which counts the feed's bubbles. */
  ghost predicate Counted(threads: seq<Thread>, feeds: map<string, Feed>) {
    && (forall t :: t in feeds ==> HasThread(threads, t))
    && (forall i :: 0 <= i < |threads| && threads[i].id in feeds
          ==> threads[i].replyCount == |feeds[threads[i].id].bubbles|)
  }

  ghost predicate KeyExists(feeds: map<string, Feed>, key: string) {
    exists t, i :: At(feeds, t, i) && feeds[t].bubbles[i].key == key
  }

  ghost predicate BadgesAttached(s: State) {
    forall key :: key in s.badgesByKey ==> KeyExists(s.feeds, key)
  }

  ghost predicate WellFormed(s: State) {
    && KeysUnique(s.feeds)
    && (forall t :: t in s.feeds ==> FeedOrdered(s.feeds[t], TsFor(s)))
    && ThreadsUnique(s.threads)
    && Counted(s.threads, s.feeds)
    && BadgesAttached(s)
  }

  ghost predicate GoodScript(beats: seq<Beat>) {
    && (forall i, j :: 0 <= i < j < |beats| ==> beats[i].id != beats[j].id)
    && (forall i :: 0 <= i < |beats| && beats[i].Jump? ==> beats[i].minutes >= 0)
  }

  lemma {:induction false} KeyOfInjective(a: string, b: string)
    ensures KeyOf(a) == KeyOf(b) ==> a == b
  {
    assert KeyOf(a)[2..] == a && KeyOf(b)[2..] == b;
  }

  /** A post leaves every bubble in its place and adds at most its own. */
  lemma {:induction false} PostedAt(s: State, beat: Beat, t: string, i: int)
    requires beat.Post? && At(ApplyPost(s, beat).feeds, t, i)
    ensures var feeds' := ApplyPost(s, beat).feeds;
      if At(s.feeds, t, i) then feeds'[t].bubbles[i] == s.feeds[t].bubbles[i]
      else t == beat.thread && i == |feeds'[t].bubbles| - 1 && feeds'[t].bubbles[i].key == KeyOf(beat.id)
  {
  }

  lemma {:induction false} PostKeepsKeys(s: State, beats: seq<Beat>, n: nat)
    requires GoodScript(beats) && n < |beats| && beats[n].Post?
    requires KeysUnique(s.feeds) && KeysFrom(s.feeds, beats, n)
    ensures var s' := ApplyPost(s, beats[n]); KeysUnique(s'.feeds) && KeysFrom(s'.feeds, beats, n + 1)
  {
    hide ApplyPost, PostedFeed, MakeBubble, KeyOf;
    var beat := beats[n];
    var feeds, feeds' := s.feeds, ApplyPost(s, beat).feeds;
    forall t, i | At(feeds', t, i)
      ensures if At(feeds, t, i) then feeds'[t].bubbles[i] == feeds[t].bubbles[i]
              else t == beat.thread && i == |feeds'[t].bubbles| - 1 && feeds'[t].bubbles[i].key == KeyOf(beat.id)
    {
      PostedAt(s, beat, t, i);
    }
    forall t, i | At(feeds, t, i)
      ensures feeds[t].bubbles[i].key != KeyOf(beat.id)
    {
      var k :| 0 <= k < n && feeds[t].bubbles[i].key == KeyOf(beats[k].id);
      KeyOfInjective(beats[k].id, beat.id);
    }
    forall t, i | At(feeds', t, i)
      ensures exists k :: 0 <= k < n + 1 && feeds'[t].bubbles[i].key == KeyOf(beats[k].id)
    {
      if At(feeds, t, i) {
        var k :| 0 <= k < n && feeds[t].bubbles[i].key == KeyOf(beats[k].id);
      } else {
        assert feeds'[t].bubbles[i].key == KeyOf(beats[n].id);
      }
    }
  }

  lemma {:induction false} PostKeepsBadges(s: State, beat: Beat)
    requires beat.Post? && BadgesAttached(s)
    ensures BadgesAttached(ApplyPost(s, beat))
  {
    var s' := ApplyPost(s, beat);
    forall key | key in s'.badgesByKey
      ensures KeyExists(s'.feeds, key)
    {
      if key in s.badgesByKey {
        var t, i :| At(s.feeds, t, i) && s.feeds[t].bubbles[i].key == key;
        assert At(s'.feeds, t, i) && s'.feeds[t].bubbles[i].key == key;
      } else {
        assert LastKey(s'.feeds, beat.thread) == Some(key);
        var last := |s'.feeds[beat.thread].bubbles| - 1;
        assert At(s'.feeds, beat.thread, last) && s'.feeds[beat.thread].bubbles[last].key == key;
      }
    }
  }

  lemma {:induction false} MentionKeepsBadges(s: State, beat: Beat)
    requires beat.MentionBeat? && BadgesAttached(s)
    ensures BadgesAttached(Reduce(s, beat))
  {
    var s' := Reduce(s, beat);
    forall key | key in s'.badgesByKey
      ensures KeyExists(s'.feeds, key)
    {
      if key !in s.badgesByKey {
        var last := |s.feeds[beat.thread].bubbles| - 1;
        assert At(s.feeds, beat.thread, last) && s.feeds[beat.thread].bubbles[last].key == key;
      }
    }
  }

  lemma {:induction false} PostKeepsIds(s: State, beat: Beat)
    requires beat.Post?
    ensures var s' := ApplyPost(s, beat);
      && |s'.threads| >= |s.threads| && (forall i :: 0 <= i < |s.threads| ==> s'.threads[i].id == s.threads[i].id)
      && HasThread(s'.threads, beat.thread) && (ThreadsUnique(s.threads) ==> ThreadsUnique(s'.threads))
  {
    var s' := ApplyPost(s, beat);
    if HasThread(s.threads, beat.thread) {
      var i :| 0 <= i < |s.threads| && s.threads[i].id == beat.thread;
      assert s'.threads[i].id == beat.thread;
    } else {
      assert s'.threads[|s.threads|].id == beat.thread;
    }
  }

  lemma {:induction false} PostKeepsRows(s: State, beat: Beat)
    requires beat.Post? && Counted(s.threads, s.feeds)
    ensures var s' := ApplyPost(s, beat);
      Counted(s'.threads, s'.feeds) && (ThreadsUnique(s.threads) ==> ThreadsUnique(s'.threads))
  {
    hide ApplyPost, HasThread, ThreadsUnique;
    PostKeepsIds(s, beat);
    PostKeepsCounts(s, beat);
    FeedsHaveRows(s, beat);
  }

  lemma {:induction false} PostKeepsCounts(s: State, beat: Beat)
    requires beat.Post? && Counted(s.threads, s.feeds)
    ensures var s' := ApplyPost(s, beat);
      forall i :: 0 <= i < |s'.threads| && s'.threads[i].id in s'.feeds
                  ==> s'.threads[i].replyCount == |s'.feeds[s'.threads[i].id].bubbles|
  {
    hide MakeBubble, AddBadges, LastKey, KeyOf, TsFor;
  }

  lemma {:induction false} FeedsHaveRows(s: State, beat: Beat)
    requires beat.Post? && Counted(s.threads, s.feeds)
    ensures var s' := ApplyPost(s, beat); forall t :: t in s'.feeds ==> HasThread(s'.threads, t)
  {
    hide PostedThreads, PostedFeed, AddBadges, LastKey, KeyOf;
    var s' := ApplyPost(s, beat);
    PostKeepsIds(s, beat);
    forall t | t in s'.feeds
      ensures HasThread(s'.threads, t)
    {
      if t != beat.thread {
        var i :| 0 <= i < |s.threads| && s.threads[i].id == t;
        assert s'.threads[i].id == t;
      }
    }
  }

  lemma {:induction false} PostKeepsOrder(s: State, beat: Beat)
    requires beat.Post? && forall t :: t in s.feeds ==> FeedOrdered(s.feeds[t], TsFor(s))
    ensures var s' := ApplyPost(s, beat); forall t :: t in s'.feeds ==> FeedOrdered(s'.feeds[t], TsFor(s'))
  {
    hide FeedOrdered, PostedFeed, PostedThreads, AddBadges, LastKey, KeyOf;
    OrderedLater(s.feeds, TsFor(s), TsFor(s) + STEP_MS);
    PostedFeedOrdered(s, beat);
  }

  lemma {:induction false} PostedFeedOrdered(s: State, beat: Beat)
    requires beat.Post? && (beat.thread in s.feeds ==> FeedOrdered(s.feeds[beat.thread], TsFor(s)))
    ensures FeedOrdered(PostedFeed(s, beat), TsFor(s) + STEP_MS)
  {
  }

  /** Well-formed after `n` beats. */
  ghost predicate Sound(s: State, beats: seq<Beat>, n: nat) {
    WellFormed(s) && n <= |beats| && KeysFrom(s.feeds, beats, n)
  }

  lemma {:induction false} KeysFromMore(feeds: map<string, Feed>, beats: seq<Beat>, n: nat)
    requires n < |beats| && KeysFrom(feeds, beats, n)
    ensures KeysFrom(feeds, beats, n + 1)
  {
    forall t, i | At(feeds, t, i)
      ensures exists k :: 0 <= k < n + 1 && feeds[t].bubbles[i].key == KeyOf(beats[k].id)
    {
      var k :| 0 <= k < n && feeds[t].bubbles[i].key == KeyOf(beats[k].id);
    }
  }

  lemma {:induction false} OrderedLater(feeds: map<string, Feed>, now: int, later: int)
    requires now <= later && forall t :: t in feeds ==> FeedOrdered(feeds[t], now)
    ensures forall t :: t in feeds ==> FeedOrdered(feeds[t], later)
  {
  }

  lemma {:induction false} SameFeedsSound(s: State, s': State, beats: seq<Beat>, n: nat)
    requires n < |beats| && Sound(s, beats, n)
    requires s'.feeds == s.feeds && s'.threads == s.threads && TsFor(s) <= TsFor(s') && BadgesAttached(s')
    ensures Sound(s', beats, n + 1)
  {
    OrderedLater(s.feeds, TsFor(s), TsFor(s'));
    KeysFromMore(s.feeds, beats, n);
  }

  lemma {:induction false} OtherBeatsKeepSound(s: State, beats: seq<Beat>, n: nat)
    requires GoodScript(beats) && n < |beats| && Sound(s, beats, n) && !beats[n].Post?
    ensures Sound(Reduce(s, beats[n]), beats, n + 1)
  {
    OtherBeatsChange(s, beats[n]);
    if beats[n].MentionBeat? { MentionKeepsBadges(s, beats[n]); }
    SameFeedsSound(s, Reduce(s, beats[n]), beats, n);
  }

  /** A beat that posts nothing leaves feeds and rows alone. */
  lemma {:induction false} OtherBeatsChange(s: State, beat: Beat)
    requires !beat.Post?
    ensures var s' := Reduce(s, beat);
      && s'.feeds == s.feeds && s'.threads == s.threads && (!beat.MentionBeat? ==> s'.badgesByKey == s.badgesByKey)
      && (!(beat.Jump? && beat.minutes < 0) ==> TsFor(s) <= TsFor(s'))
  {
  }

  lemma {:induction false} PostKeepsSound(s: State, beats: seq<Beat>, n: nat)
    requires GoodScript(beats) && n < |beats| && Sound(s, beats, n) && beats[n].Post?
    ensures Sound(Reduce(s, beats[n]), beats, n + 1)
  {
    PostKeepsKeys(s, beats, n);
    PostKeepsOrder(s, beats[n]);
    PostKeepsBadges(s, beats[n]);
    PostKeepsRows(s, beats[n]);
  }

  /** For every script with distinct beat ids and no jump back in time, over
      every seed whose thread rows are distinct, in every frame: bubble keys
      are unique across all feeds, each feed is strictly increasing in time,
      thread rows are distinct, each row of a thread with a feed counts its
      bubbles, and every badge hangs on an existing bubble. */
  lemma {:induction false} EveryFrameWellFormed(seed: Seed, beats: seq<Beat>, n: nat)
    requires GoodScript(beats) && ThreadsUnique(seed.seededThreads) && n <= |beats|
    ensures Sound(Frame(seed, beats, n), beats, n)
  {
    hide Sound, Reduce;
    if n == 0 {
      FirstFrameWellFormed(seed, beats);
    } else {
      var s := Frame(seed, beats, n - 1);
      EveryFrameWellFormed(seed, beats, n - 1);
      if beats[n - 1].Post? {
        PostKeepsSound(s, beats, n - 1);
      } else {
        OtherBeatsKeepSound(s, beats, n - 1);
      }
    }
  }

  lemma {:induction false} FirstFrameWellFormed(seed: Seed, beats: seq<Beat>)
    requires ThreadsUnique(seed.seededThreads)
    ensures Sound(Frame(seed, beats, 0), beats, 0)
  {
  }

  /** For every script, even one that repeats ids or jumps back in time, and
      every seed, in every frame: each thread with a feed has a row, each such
      row counts the feed's bubbles, and every badge hangs on an existing bubble. */
  lemma {:induction false} EveryFrameCounted(seed: Seed, beats: seq<Beat>, n: nat)
    requires n <= |beats|
    ensures var s := Frame(seed, beats, n); Counted(s.threads, s.feeds) && BadgesAttached(s)
  {
    hide Reduce, Counted, BadgesAttached;
    if n == 0 {
      FirstFrameCounted(seed, beats);
    } else {
      EveryFrameCounted(seed, beats, n - 1);
      BeatKeepsCounts(Frame(seed, beats, n - 1), beats[n - 1]);
    }
  }

  lemma {:induction false} FirstFrameCounted(seed: Seed, beats: seq<Beat>)
    ensures var s := Frame(seed, beats, 0); Counted(s.threads, s.feeds) && BadgesAttached(s)
  {
  }

  lemma {:induction false} BeatKeepsCounts(s: State, beat: Beat)
    requires Counted(s.threads, s.feeds) && BadgesAttached(s)
    ensures var s' := Reduce(s, beat); Counted(s'.threads, s'.feeds) && BadgesAttached(s')
  {
    hide ApplyPost, Counted, KeyExists;
    if beat.Post? {
      PostKeepsRows(s, beat);
      PostKeepsBadges(s, beat);
    } else {
      OtherBeatsChange(s, beat);
      if beat.MentionBeat? { MentionKeepsBadges(s, beat); }
    }
  }

  /** What a later feed keeps of an earlier one. */
  predicate Grows(a: map<string, Feed>, b: map<string, Feed>) {
    forall t :: t in a ==> t in b && a[t].bubbles <= b[t].bubbles && a[t].root == b[t].root
  }

  lemma {:induction false} ReduceGrows(s: State, beat: Beat)
    requires Counted(s.threads, s.feeds)
    ensures Grows(s.feeds, Reduce(s, beat).feeds)
  {
    if beat.Post? && beat.thread in s.feeds {
      assert HasThread(s.threads, beat.thread);
    }
  }

  lemma {:induction false} GrowsTrans(a: map<string, Feed>, b: map<string, Feed>, c: map<string, Feed>)
    requires Grows(a, b) && Grows(b, c)
    ensures Grows(a, c)
  {
    forall t | t in a
      ensures t in c && a[t].bubbles <= c[t].bubbles && a[t].root == c[t].root
    {
    }
  }

  function FeedsAt(seed: Seed, beats: seq<Beat>, n: nat): map<string, Feed>
    requires n <= |beats|
  {
    Frame(seed, beats, n).feeds
  }

  lemma {:induction false} FeedsGrow(seed: Seed, beats: seq<Beat>, m: nat)
    requires 0 < m <= |beats|
    ensures Grows(FeedsAt(seed, beats, m - 1), FeedsAt(seed, beats, m))
  {
    hide Reduce, Grows, Counted, BadgesAttached;
    EveryFrameCounted(seed, beats, m - 1);
    ReduceGrows(Frame(seed, beats, m - 1), beats[m - 1]);
  }

  lemma {:induction false} GrowsThroughout(feeds: nat -> map<string, Feed>, n: nat, m: nat)
    requires n <= m && forall k: nat :: n < k <= m ==> Grows(feeds(k - 1), feeds(k))
    ensures Grows(feeds(n), feeds(m))
    decreases m
  {
    if n < m {
      GrowsThroughout(feeds, n, m - 1);
      GrowsTrans(feeds(n), feeds(m - 1), feeds(m));
    }
  }

  /** Feeds only grow, whatever the script and the seed: what a frame shows of a
      thread stays, in place, in all later frames. */
  lemma {:induction false} FeedsOnlyGrow(seed: Seed, beats: seq<Beat>, n: nat, m: nat)
    requires n <= m <= |beats|
    ensures Grows(FeedsAt(seed, beats, n), FeedsAt(seed, beats, m))
  {
    hide Grows, FeedsAt;
    var feeds := (k: nat) => if k <= |beats| then FeedsAt(seed, beats, k) else map[];
    forall k: nat | n < k <= m
      ensures Grows(feeds(k - 1), feeds(k))
    {
      FeedsGrow(seed, beats, k);
    }
    GrowsThroughout(feeds, n, m);
  }
}
