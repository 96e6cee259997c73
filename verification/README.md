# Proofs about Patom's client and cache

Models of the parts of Patom where the logic is intricate, with proofs of what
they promise:

- **Cache** (`CacheModel`, `Cache`, `CacheProtocol`, `CacheAlone`): the
  epoch-fenced bounded TTL cache, as sequential code with its eviction loop and
  as a step system in which any number of clients look up, load, insert, write
  and invalidate. The map's iteration order and the time are parameters.
  `CacheAlone` says what a call comes to when no other is in its way.
- **Virtual time and the demo** (`ManualClock`, `DemoReducer`, `DemoScript`,
  `DemoPlayback`): the discrete-event clock with self-scheduling callbacks, the
  pure reducer, and the playback driver, composed: the driver run by the clock
  shows the folded script. `DemoScript` says what every frame shows from the
  seed and the script alone. One timer firing or control call is one atomic
  batch, after which the effect is cleaned up and re-armed if a dependency
  changed.
- **Mentions** (`Mentions`, `MentionTree`, `MentionPaths`): the
  leftmost-longest matcher, the text splitter, and the explicit-stack rewrite of
  a document of mutable elements, shown to be the recursive rewrite.
  `MentionPaths` says what becomes of each node of the document, by its path.
- **History fold** (`ChatBody`, `FoldModel`, `FoldSteps`, `FoldSpec`,
  `FoldProof`, `FoldTheorems`, `FoldResults`, `FoldFaces`, `FoldHistory`): a
  thread's rows folded into bubbles. `FoldModel` is the fold on values, with
  tool entries numbered; `FoldSpec` says which reasoning and entries belong to
  which bubble from the rows alone; `FoldProof` shows that the fold agrees
  after every prefix; `FoldFaces` says which bubbles there are, whose face each
  wears and whom it is tagged to, from the rows and the roster alone;
  `FoldHistory` is the code on shared, mutated objects.
- **Merged view** (`StableSort`, `ThreadView`, `ViewCards`): persisted bubbles,
  live replies and posts not yet echoed. `ViewCards` says which cards show, and
  what is on them.
- **Stores and arithmetic** (`AttachmentModel`, `AttachmentEffects`,
  `Attachments`, `MemoryJournal`, `MemoryEffects`, `Paging`, `Uuid`):
  attachments and their preview URLs, the memory journal, cursor paging, and
  UUIDs version 7 (section 5.7 of RFC 9562). The two modules of effects say what
  each event and operation changes, item by item.

Code and comments disagree in a few places; the models follow the code:

- The cache says it evicts the oldest expired entry and evicts the first
  expired one it meets (`CacheModel.OldestExpiredExactly` says when these agree).
- The view says a live reply is hidden once its request id lands in history.
  It shows again when every bubble with that id is of a send reported failed
  later and no new bubble carries the id (`ThreadView.FailedSendUncoversLive`);
  `ThreadView.LiveReturnsExactly` and `RequestIdsGrow` say when exactly.
- The playback hook says it surfaces "ended" when paused at the end. It is then
  at "paused" (`DemoPlayback.PausedAtTheEnd`); "ended" shows just under reduced
  motion until the first play or restart (`DemoPlayback.EndedExactly`).
- The view breaks time ties by phase; the order of concatenation already does
  (`ThreadView.PhaseTieBreakIsIdle`).
- An inverse journal event may record a text that was not the one replaced or
  removed, as when a creation is undone twice (`MemoryJournal.UndoneTwiceLies`);
  `MemoryJournal.InverseIsTruthful` says when exactly.
- A tag is put before a message unless it "already opens with it"; the code also
  takes the tag of a longer name for it (`FoldModel.PrefixNameOnce`).

Times are integers. Text in `Mentions` and `MentionTree` is a sequence of
UTF-16 code units; elsewhere it is a string. Maps whose iteration order the
code relies on (insertion order) are sequences.

## Model

| member | source | states |
|---|---|---|
| CacheProtocol.InvalidationFence | crates/patom-core/src/cache.rs:109-188 | In every interleaving of any number of clients, once a `clear` or `invalidate` asked for after some writes has returned, no entry it covers ever holds a value read before those writes; the capacity holds throughout |
| CacheProtocol.HitsAreFresh | crates/patom-core/src/cache.rs:115-132 | A lookup that starts after such a call has returned never hits a value read before those writes |
| CacheProtocol.StraddlingLoad | crates/patom-core/src/cache.rs:119-180 | A load that straddles the call may itself answer with the old value, and an entry may even be stale between the bump and the removal: a concrete interleaving |
| CacheProtocol.StepKeepsInv | crates/patom-core/src/cache.rs:125-188 | Every step of every client keeps the invariant: check and insert are separate steps under one lock, and the bump is not under it |
| CacheProtocol.PutKeepsInv | crates/patom-core/src/cache.rs:139-159 | An insert whose check has passed leaves only fenced values, although a bump may fall between the check and the insert |
| CacheProtocol.RemoveKeepsInv | crates/patom-core/src/cache.rs:179-187 | The locked removal after the bump drops whatever a racing insert left behind |
| CacheAlone.LooksUp | crates/patom-core/src/cache.rs:125-132 | In the protocol a call hits just when the map holds the key and `now < fetchedAt + ttl` |
| CacheAlone.LoadAlone | crates/patom-core/src/cache.rs:109-159 | From any state with the lock free, one client's lookup of a key not held, or held for `ttl` or longer, loads the source's present value, answers it and stores it, step by step of the protocol |
| CacheAlone.InvalidateAlone | crates/patom-core/src/cache.rs:175-188 | An invalidation takes away just the entry of its key, or every entry, and moves the epoch by one |
| CacheAlone.OvertakenLoad | crates/patom-core/src/cache.rs:139-143 | A load whose epoch has moved by the time of its check answers what it read and stores nothing |
| CacheModel.VictimForEveryOrder | crates/patom-core/src/cache.rs:214-237 | Whatever the iteration order: if the time to live of some entry is over (`fetchedAt + ttl <= now`), the victim is such an entry; else no entry was fetched before it; an empty map has none |
| CacheModel.EvictionMakesRoom | crates/patom-core/src/cache.rs:144-151 | Eviction from a full map always makes room, so the assertion never fails |
| CacheModel.InsertStores | crates/patom-core/src/cache.rs:139-159 | An insert leaves the value under the present time and every other entry as it was, but for one victim of the above kind when a new key finds the map full |
| CacheModel.InsertKeepsBound | crates/patom-core/src/cache.rs:144-158 | An insert never leaves more than `cap` entries, refreshes a key already there without evicting, and drops at most one other key |
| CacheModel.ScanMayMissOldestExpired | crates/patom-core/src/cache.rs:212-224 | The comment says the oldest expired entry goes; the code takes the first expired one it meets: a concrete map and order |
| CacheModel.OldestExpiredExactly | crates/patom-core/src/cache.rs:212-224 | Every iteration order gives an oldest expired victim just when all expired entries were fetched at the same time |
| Cache.BoundedTtlCache.GetOrLoad | crates/patom-core/src/cache.rs:109-123 | Answers from the map, changing nothing, just when the key is there and `now < fetchedAt + ttl`, whatever the loader gives; else answers what the loader gives, and a value is stored under its time, one such victim going if a new key finds the map full; a loader error leaves the map as it was |
| Cache.BoundedTtlCache.InsertIfEpoch | crates/patom-core/src/cache.rs:139-159 | Inserts just when the epoch has not moved, by the specified insertion |
| Cache.BoundedTtlCache.EvictOne | crates/patom-core/src/cache.rs:214-237 | The scanning loop removes exactly the specified victim |
| Cache.CacheIsTransparent | crates/patom-core/src/cache.rs:109-188 | After every sequential run in which each write is followed by an invalidation before the next lookup of its key, an answer is the source's present value: from the cache just when the entry is less than `ttl` old, and then even if the loader fails; an error is answered just when the loader fails and there is no such entry |
| Cache.RunKeepsCoherent | crates/patom-core/src/cache.rs:109-188 | Every entry left by such a run equals the source, and the bound holds |
| ManualClock.DueIsLeast | web/src/lib/demoClock.ts:43-49 | The scan finds the least due timer by deadline and creation, or there is none |
| ManualClock.TickFiresWhatIsDue | web/src/lib/demoClock.ts:38-55 | A tick ends at its target with nothing due; each timer that was due fired, exactly once, unless a callback cleared it; later ones stay |
| ManualClock.HistoryKeepsOrder | web/src/lib/demoClock.ts:29-55 | Over every history of calls and self-scheduling callbacks, time never goes back, firings are in strict (deadline, id) order, and each timer is pending, fired or cleared, and only one of these |
| ManualClock.TickSplits | web/src/lib/demoClock.ts:38-55 | `tick(a)` then `tick(b)` ends in the same state, with the same firings, as `tick(a+b)`, and one ends just when the other does |
| ManualClock.TickIsDeterministic | web/src/lib/demoClock.ts:38-55 | A tick has one outcome |
| ManualClock.TickEnds | web/src/lib/demoClock.ts:42-53 | When callbacks only set timers with positive delays, every tick ends |
| ManualClock.ZeroDelayNeverEnds | web/src/lib/demoClock.ts:42-53 | A callback that sets itself again with no delay keeps a tick busy for ever |
| ManualClock.Clock.SetTimeout | web/src/lib/demoClock.ts:30-34 | Adds one timer at the clamped deadline under a new id |
| ManualClock.Clock.ClearTimeout | web/src/lib/demoClock.ts:35-37 | Removes the timer of that id and nothing else |
| ManualClock.Clock.Tick | web/src/lib/demoClock.ts:38-55 | The loop on the object terminates and does what the specified tick does |
| ManualClock.Clock.FindDue | web/src/lib/demoClock.ts:43-48 | The inner loop computes the specified scan |
| DemoPlayback.PlaybackInvariant | web/src/hooks/useDemoPlayback.ts:78-111 | In every reachable state the frame is the fold of the first `cursor` beats, one timer is pending while playing, made for the current cursor, and none otherwise; a pause at a gate stands right after a gate |
| DemoPlayback.EveryTickEnds | web/src/hooks/useDemoPlayback.ts:62-96 | From every such state, letting any time pass ends, in one state, with the invariant kept |
| DemoPlayback.FireAdvances | web/src/hooks/useDemoPlayback.ts:81-95 | A firing applies exactly the beat at the cursor, or starts the loop over, and arms the next timer |
| DemoPlayback.GateHolds | web/src/hooks/useDemoPlayback.ts:90-108 | After a gate, over any run without the click or a restart, nothing moves the story |
| DemoPlayback.GateFreePlayback | web/src/hooks/useDemoPlayback.ts:62-96 | Under the manual clock, a gate-free script ticked by the sum of its delays shows exactly the terminal frame, and 4000 ms later the initial one |
| DemoPlayback.GatedPlayback | web/src/hooks/useDemoPlayback.ts:62-108 | With gates, one click a gate suffices, whatever the waits: the viewing ends on the terminal frame, and 4000 ms later the initial one shows |
| DemoPlayback.ClicksMatchGates | web/src/hooks/useDemoPlayback.ts:92-108 | That viewing presses exactly one button per gate |
| DemoPlayback.ReducedPlayback | web/src/hooks/useDemoPlayback.ts:69-79 | Under reduced motion no timer runs: the terminal frame shows until the first restart, then the initial one for good |
| DemoPlayback.EndedExactly | web/src/hooks/useDemoPlayback.ts:73-108 | Over every run, the status is "ended" just under reduced motion and before the first play or restart |
| DemoPlayback.PausedAtTheEnd | web/src/hooks/useDemoPlayback.ts:98-114 | A whole viewing paused at its end is at "paused", with the terminal frame: a run for every script without reduced motion |
| DemoPlayback.PauseThenPlay | web/src/hooks/useDemoPlayback.ts:78-102 | Pausing any playing state and then pressing play gives the same frame and cursor, playing, with the timer of that very beat armed anew for its whole delay |
| DemoPlayback.PausedExactly | web/src/hooks/useDemoPlayback.ts:98-109 | Over every run, the status is "paused" just when some pause found the playback playing and no play or restart came since |
| DemoPlayback.RestartStartsOver | web/src/hooks/useDemoPlayback.ts:103-107 | From every reachable state a restart shows the first frame and plays; only a playback already playing at its start keeps its pending timer |
| DemoPlayback.Playback.Control | web/src/hooks/useDemoPlayback.ts:98-109 | The object changes by each control as `PauseThenPlay`, `RestartStartsOver`, `GateHolds` and `PausedExactly` speak of, re-arms only when a dependency changed, and keeps the invariant |
| DemoPlayback.Playback.Elapse | web/src/hooks/useDemoPlayback.ts:78-96 | The clock under the hook may be ticked by any time: the tick terminates and keeps the invariant |
| DemoPlayback.Playback.Act | web/src/hooks/useDemoPlayback.ts:115-121 | The act is the last one whose start the cursor has reached, or the first |
| DemoReducer.EveryFrameWellFormed | web/src/lib/demoReducer.ts:173-283 | For every script with distinct beat ids and no jump back: bubble keys are unique over all feeds, feeds strictly increase in time, thread rows are distinct, rows count their bubbles, and every badge hangs on a bubble |
| DemoReducer.EveryFrameCounted | web/src/lib/demoReducer.ts:173-283 | For every script and seed whatever: each thread with a feed has a row, rows count their bubbles, and every badge hangs on a bubble |
| DemoReducer.FeedsOnlyGrow | web/src/lib/demoReducer.ts:251-293 | For every script and seed, what a frame shows of a thread stays, in place, in all later frames |
| DemoScript.FeedsAreThePosts | web/src/lib/demoReducer.ts:92-192 | In every frame of every script, a thread's root and bubbles are exactly its post beats so far, in order, with their text, sender, key, and time from the origin, the beat number and the jumps before; the first is the root just when it is a human's and the seed has no row of the thread |
| DemoScript.RowsAreTheThreads | web/src/lib/demoReducer.ts:194-217 | In every frame the rows are the seed's and then one for each thread first posted to, in order, with its place, first post, last activity and replies |
| DemoScript.TilesAreAsSet | web/src/lib/demoReducer.ts:227-283 | In every frame each tile is as the script last set it, the thread shown is the last one posted to or mentioned in, and a bubble's reasoning and tools are those of the last post with its key that had any |
| DemoScript.BadgesAreAsPut | web/src/lib/demoReducer.ts:219-275 | In every frame a bubble has exactly the badges of the beats that put some on it, in order: those whose thread had it last |
| DemoReducer.PostKeepsKeys | web/src/lib/demoReducer.ts:173-240 | A post keeps the bubble keys of all feeds unique, each made from the id of a beat so far |
| DemoReducer.PostKeepsRows | web/src/lib/demoReducer.ts:194-217 | A post keeps every row's reply count equal to its feed, gives the thread a row, and adds no second row of one id |
| Mentions.FindNamedMentions | web/src/lib/mentions.tsx:34-64 | The scanning loop computes the specified mentions |
| Mentions.NamedMentionsAreLeftmostLongest | web/src/lib/mentions.tsx:34-64 | The mentions are ordered, disjoint and bounded, each with the longest listed name that fits there, and no candidate outside an earlier mention is left out |
| Mentions.LeftmostLongestUnique | web/src/lib/mentions.tsx:34-64 | That description fits one list of mentions only |
| Mentions.SplitMentionNodes | web/src/lib/mentions.tsx:140-155 | The splitting loop computes the specified parts |
| Mentions.SplitRoundTrip | web/src/lib/mentions.tsx:140-155 | The parts concatenate to the input, with tags exactly at the spans |
| Mentions.SplitIntoOne | web/src/lib/mentions.tsx:144-155 | A text stays one part just when it has no span, or one span that is all of it |
| Mentions.TagsAreTheMentions | web/src/lib/mentions.tsx:110-155 | With names, the tags of a split text stand just where its leftmost-longest mentions do |
| Mentions.NamedModeIsGood | web/src/lib/mentions.tsx:110-119 | The named matcher always gives ordered, disjoint, non-empty spans, so the splitter and the rewrite may be run with it |
| MentionTree.RewriteKeepsText | web/src/lib/mentions.tsx:164-190 | The recursive rewrite keeps the text of the document and its outermost `code`/`pre` subtrees, in order |
| MentionTree.RehypeMentions | web/src/lib/mentions.tsx:164-190 | The stack walk terminates, always keeps the text and the `code`/`pre` subtrees, and for up to 100,000 visits does the recursive rewrite that `MentionPaths.EveryNodeFollows` describes |
| MentionTree.WalkGoesOn | web/src/lib/mentions.tsx:168-188 | One turn of the walk keeps the finished document, has its pushed children waiting, and takes one off the visits to come |
| MentionTree.Rebuild | web/src/lib/mentions.tsx:173-187 | The loop over one element's children builds the new list, the flag and the pushes as specified |
| MentionPaths.EveryNodeFollows | web/src/lib/mentions.tsx:157-190 | For every path of every document: a node with a `code` or `pre` ancestor below the root is unchanged and in its place; any other text that splits or has a splitting sibling is replaced by its parts, plain text and `span.mention`; every other leaf stays, elements keep their tag and class, and only split texts move what comes after them |
| ChatBody.DecodeBody | web/src/lib/chatBody.ts:16-52 | The block loop computes the specified pieces, for missing bodies, block lists and the legacy text |
| ChatBody.DecodeSnoc | web/src/lib/chatBody.ts:27-45 | Each block adds to exactly one piece, and texts are joined by newlines from the first non-empty one on |
| FoldTheorems.BubbleList | web/src/lib/foldHistory.ts:205-355 | One bubble per origin, in row then call order, with the face of its row; `FoldFaces.FacesAreTheirRows` says both from the rows alone |
| FoldFaces.FacesAreTheirRows | web/src/lib/foldHistory.ts:205-355 | For every thread, roster and viewer: the bubbles are, in row then call order, those of every `send_message` call of an agent that no error answers anywhere, and of every human row with text or attachments but the first; each has its own row's author name and id, avatar, agent and agent name, time, request id, client key and attachments, and the row's or call's content, tagged at most once |
| FoldFaces.RootIsTheFirstHuman | web/src/lib/foldHistory.ts:313-330 | The root is the first human row, with that row's author, avatar, time, attachments and text, and there is none just when no human wrote |
| FoldFaces.SameForEveryViewer | web/src/lib/foldHistory.ts:307-315 | When every human row carries its name and user id, the whole fold is the same for any two viewers |
| FoldFaces.NamesAreCalled | web/src/lib/foldHistory.ts:132-152 | A colleague is called by the last row that names them, the receiver before the sender, else by the roster's last entry |
| FoldFaces.TagIs | web/src/lib/foldHistory.ts:153-259 | A reply is tagged to what the receiver of the last posted row of its request and text is called, or not at all |
| FoldFaces.CallsOfARow | web/src/lib/foldHistory.ts:214-242 | The sends, the other calls and the delivered sends of a row are those calls by name and failure, each in order |
| FoldTheorems.AppendKeepsBubbles | web/src/lib/foldHistory.ts:131-180 | Adding rows inserts nothing before or among the old bubbles and removes only those of sends the new rows report as failed |
| FoldTheorems.KeysAreNames | web/src/lib/foldHistory.ts:261-334 | Bubble keys depend on row and call only, so the above is about keys |
| FoldTheorems.KeysAreDistinct | web/src/lib/foldHistory.ts:29-30 | With distinct row numbers, and distinct call ids within a row, no two bubbles have one key |
| FoldModel.FailedExactly | web/src/lib/foldHistory.ts:131-168 | A call counts as failed just when some row, before or after it, answers it with an error |
| FoldModel.ReceiverIsLastPosted | web/src/lib/foldHistory.ts:153-179 | A reply is tagged from the last posted row whose request and text join to the same key, or not at all |
| FoldModel.KeyTellsApart | web/src/lib/foldHistory.ts:159-160 | The joined key is the same just when request and text are, if the request ids have no space |
| FoldModel.KeysCanClash | web/src/lib/foldHistory.ts:159-160 | With a space in a request id two requests can share a key |
| FoldModel.PrefixNameOnce | web/src/lib/foldHistory.ts:430-436 | A named message opens with a mention of just that name, added at most once before the content, unless the content opens with the tag run on into a longer word |
| FoldModel.LongerNameHidesTag | web/src/lib/foldHistory.ts:433-436 | A message to Bob that opens with Bobby's tag gets no mention of Bob |
| FoldModel.JoinTextLaws | web/src/lib/foldHistory.ts:438-442 | `joinText` puts a newline between two non-empty texts, and is associative with the empty text as identity |
| FoldTheorems.ReasoningHasOneHome | web/src/lib/foldHistory.ts:244-299 | Each reasoning row goes to the bubbles of exactly one row of the same agent (its own, the last before, or the next to deliver) or stays pending |
| FoldTheorems.ReasoningIsKept | web/src/lib/foldHistory.ts:244-299 | Every bubble and accumulator holds exactly the reasoning that goes there, joined in row order |
| FoldTheorems.ToolGoesTo | web/src/lib/foldHistory.ts:221-281 | A call's entry is in the bubbles of a row just when that is its agent's first delivering row from the call on |
| FoldTheorems.ToolsAreKept | web/src/lib/foldHistory.ts:221-281 | Every call of an agent has one entry, and bubbles hold their entries in the order made |
| FoldResults.EntryOfACall | web/src/lib/foldHistory.ts:208-306 | With distinct ids, a bubble holds a call's entry just when its row is the agent's first to deliver a send from the call on, and the entry ends with the last result for the call, whenever it came |
| FoldResults.EntriesEndWithTheLastResult | web/src/lib/foldHistory.ts:301-306 | With distinct call ids, every entry ends with the last result for its call from its own row on, even one that came after the bubble, or is still running |
| FoldResults.AnswerIsLast | web/src/lib/foldHistory.ts:415-428 | The specified answer of a call is its last result, in row then block order, or there is none |
| FoldProof.FoldInv | web/src/lib/foldHistory.ts:205-355 | After every prefix of every history, tools, bubbles, accumulators, last bubbles and root are what the rows say (their faces as `FoldFaces.FacesAreTheirRows` describes) |
| FoldHistory.FoldHistory | web/src/lib/foldHistory.ts:97-373 | On shared, mutated objects, the two passes and the card pass give the fold on values, whose bubbles and root `FoldFaces` describes; a tool entry is one object in all bubbles that hold it, and no two entries or bubbles are one |
| FoldHistory.AgentRow | web/src/lib/foldHistory.ts:208-302 | An agent's row changes the shared objects as the fold on values says |
| FoldHistory.AttachOne | web/src/lib/foldHistory.ts:420-427 | A result changes the one entry it is for, seen through every bubble, or nothing |
| FoldHistory.RequestsAreFirst | web/src/lib/foldHistory.ts:357-370 | A bubble shows one card per catalog entry asked for, the first request for it |
| ThreadView.Merge | web/src/hooks/useThreadView.ts:51-153 | The loops gather the surviving live and optimistic cards, and the view is the sorted concatenation |
| ThreadView.ViewIsStable | web/src/hooks/useThreadView.ts:128-164 | The view is a permutation of the cards in (time, phase) order, ties in listed order, and the only such arrangement |
| StableSort.OneStableSort | web/src/hooks/useThreadView.ts:132-164 | A stable sort by one comparison has one result |
| ThreadView.PhaseTieBreakIsIdle | web/src/hooks/useThreadView.ts:128-175 | The phases being listed in order, sorting by time alone gives the same view |
| ThreadView.NoTwins | web/src/hooks/useThreadView.ts:67-107 | No live card shares its request, and no optimistic one its non-empty client key or attached request, with a persisted bubble |
| ThreadView.MergedKeysAreDistinct | web/src/lib/foldHistory.ts:29-30 | Nor do two of the merged view, with one live reply per request and one post per client key |
| ThreadView.ShownExactly | web/src/hooks/useThreadView.ts:67-126 | A live or optimistic entry shows just when it is not hidden |
| ViewCards.ViewShows | web/src/hooks/useThreadView.ts:51-132 | The view shows exactly: every persisted bubble; a live reply whose request no bubble carries, with its agent, text, reasoning and time; and a post with text or attachments whose key and request no bubble carries, with the poster's name, its text, attachments and time |
| ViewCards.ViewIsInOrder | web/src/hooks/useThreadView.ts:128-175 | Earlier cards come first; of one time, persisted before streaming before optimistic |
| ThreadView.HiddenStaysHidden | web/src/hooks/useThreadView.ts:53-107 | No hidden live or optimistic entry ever returns just when the new rows only grow the persisted request ids |
| ThreadView.RequestIdsGrow | web/src/hooks/useThreadView.ts:53-68 | The persisted request ids grow just when every shown send that the new rows report as failed has its request carried by another bubble |
| ThreadView.RequestIdsAfter | web/src/hooks/useThreadView.ts:53-55 | After more rows a request id is persisted just when an old bubble of no failed send, or a new bubble, carries it |
| ThreadView.LiveReturnsExactly | web/src/hooks/useThreadView.ts:65-68 | After more rows a live reply is shown, a hidden one again, just when no bubble carries its request any more |
| ThreadView.ClientKeysGrow | web/src/hooks/useThreadView.ts:56-61 | The persisted client keys only grow, whatever rows are added |
| ThreadView.PendingReturnsExactly | web/src/hooks/useThreadView.ts:98-106 | A hidden post is shown again just when it has text or attachments, no persisted key hides it, and the request that hid it is lost |
| ThreadView.FailedSendUncoversLive | web/src/hooks/useThreadView.ts:63-68 | A send reported failed later takes its request id away, and the live reply it hid is shown again: a concrete history |
| ThreadView.ThinkingExactly | web/src/hooks/useThreadView.ts:134-144 | "Thinking" shows just when the view ends with a post in flight or one that woke an agent |
| Uuid.Uuidv7 | web/src/lib/utils.ts:8-29 | The method overwrites the two bytes and returns the specified string |
| Uuid.Layout | web/src/lib/utils.ts:16-28 | 8-4-4-4-12, version 7, variant binary 10, whatever the time |
| Uuid.TimeRoundTrip | web/src/lib/utils.ts:10-24 | The time reads back just when it is below 2^48 |
| Uuid.RandomRoundTrip | web/src/lib/utils.ts:13-27 | Every random byte reads back, but for the bits of version and variant |
| Uuid.TimeOrder | web/src/lib/utils.ts:10-28 | Below 2^48 a smaller time gives a lexicographically smaller string |
| Uuid.OrderBreaks | web/src/lib/utils.ts:11-24 | The string of time 2^48 comes before that of the millisecond before it |
| Uuid.OrderExactly | web/src/lib/utils.ts:10-28 | All times up to a bound are in order, whatever the random bytes, just when the bound is below 2^48 |
| AttachmentModel.RunKeepsInv | web/src/hooks/useAttachments.ts:116-201 | Over every interleaving: at most 8 items, distinct ids, an item uploading just while its upload is unanswered, and each preview URL held by one item or given back, once in all |
| AttachmentModel.NothingLeaks | web/src/hooks/useAttachments.ts:124-131 | After closing, every preview URL ever made has been given back exactly once |
| AttachmentModel.SettledOverRuns | web/src/hooks/useAttachments.ts:133-147 | An item leaves `uploading` at most once: afterwards it stays as it is or goes |
| AttachmentModel.GoneStays | web/src/hooks/useAttachments.ts:136-144 | Over every run a removed id never returns |
| AttachmentModel.GoneStep | web/src/hooks/useAttachments.ts:136-144 | The answer to a removed id's upload changes no item |
| AttachmentModel.ReadyExactly | web/src/hooks/useAttachments.ts:203-206 | In every reachable state `ready` lists exactly the references of the items done, in item order |
| AttachmentModel.IdleIsReady | web/src/hooks/useAttachments.ts:203-209 | When nothing is in flight or failed, `ready` lists every item's reference, in place |
| AttachmentModel.AcceptedIsKnown | web/src/hooks/useAttachments.ts:95-114 | Every accepted file is uploaded under a type the server knows |
| AttachmentEffects.EveryEventDoes | web/src/hooks/useAttachments.ts:133-201 | Adding takes the first files up to 8 items, each uploading or rejected with its reason, after the old ones; an answer changes the one item of its upload, to the reference or error given; removing drops that item and gives back its URL; clearing and closing drop all |
| AttachmentEffects.RejectedExactly | web/src/hooks/useAttachments.ts:95-104 | A file is rejected just when its type is unsupported, or else it is over 10 MiB (an image) or 32 MiB, with that reason |
| AttachmentEffects.UploadedAs | web/src/hooks/useAttachments.ts:109-114 | A file goes up as it is, unless it is text by its name alone: then as plain text |
| AttachmentEffects.BusyExactly | web/src/hooks/useAttachments.ts:208-209 | Sending waits just while the answer for an item shown is to come |
| Attachments.Composer.AddFiles | web/src/hooks/useAttachments.ts:149-186 | Takes files up to the room left, each accepted or rejected as specified, and keeps the invariant of all runs |
| Attachments.Composer.Remove | web/src/hooks/useAttachments.ts:188-194 | Drops the item and gives its URL back |
| Attachments.Composer.Unmount | web/src/hooks/useAttachments.ts:124-131 | Gives back every URL still held |
| MemoryJournal.JournalReplays | web/mock-backend.ts:1728-1846 | After any sequence of create, pin, unpin and revert with new memory ids, the contents are the first ones with the appended events replayed oldest first, and no earlier event is changed |
| MemoryJournal.CreateThenRevert | web/mock-backend.ts:1728-1819 | Reverting the creation just made brings the rows back exactly |
| MemoryJournal.InverseIsTruthful | web/mock-backend.ts:1792-1845 | Undoing any event appends an inverse or changes nothing; the inverse names the texts really before and after just when the memory still has the text the undone event gave it |
| MemoryJournal.UndoneTwiceLies | web/mock-backend.ts:1802-1819 | Undoing a creation twice journals a forgotten text when nothing is there |
| MemoryJournal.UndoTwice | web/mock-backend.ts:1802-1845 | Undoing an undo brings the contents back just when: a creation's memory was already gone; an update's result was still the text; or that result is empty and the text was already the one put back |
| MemoryJournal.ForgettingStays | web/mock-backend.ts:1802-1845 | A creation undone and that undone in turn leaves the memory gone |
| MemoryEffects.EveryOperationDoes | web/mock-backend.ts:1728-1846 | Creating adds the row and its event in front; pinning sets the one row's pin as asked and nothing else; undoing finds the event by id, drops the created memory or puts the old text back in its one row, and appends the inverse, or changes nothing |
| MemoryJournal.MemoryStore.Create | web/mock-backend.ts:1728-1764 | Adds the row and its event to that agent, or answers 404; other agents are untouched; the journal still replays to the rows |
| MemoryJournal.MemoryStore.SetPinned | web/mock-backend.ts:1777-1790 | Changes one row's pin, or answers 404 |
| MemoryJournal.MemoryStore.RevertEvent | web/mock-backend.ts:1791-1846 | Undoes the event found, or answers 404; the journal still replays to the rows |
| Paging.WalkShowsAll | web/mock-backend.ts:1124-1139 | Following the cursors shows every call of a newest-first list just when no page ends inside a group of calls of one time |
| Paging.DistinctTimesShowAll | web/mock-backend.ts:1124-1139 | With distinct times every call is shown once, in order |
| Paging.PageIs | web/mock-backend.ts:1124-1139 | A page is the newest calls before the cursor, as many as fit; there is a next one just when some were left, its cursor the time of the last call shown |
| Paging.WalkPages | web/mock-backend.ts:1124-1139 | Asking for page after page, of any size asked for, ends |

## Left out

- The queue, scheduler, agent loop and server: not in the files modelled.
- Cache: epoch wrap-around, mutex poisoning, cancellation of a load, and memory orderings weaker than sequential consistency.
- Cache.BoundedTtlCache: the loader's own effects; what it returns is a parameter.
- ManualClock.Clock.Tick: callbacks that call `tick` or `pending` themselves, and fractional milliseconds; a callback is a function from the state to commands.
- DemoPlayback.PlaybackInvariant: the empty script, React's double invocation in development, and changes of the script or seed while mounted.
- DemoReducer.EveryFrameWellFormed: scripts with repeated beat ids or jumps back in time, for which keys or times may repeat; what still holds of them is `DemoReducer.EveryFrameCounted`.
- Mentions: the regular expression of the legacy mode, replaced by any function giving ordered, disjoint, non-empty spans; locale-dependent whitespace beyond the characters listed.
- MentionTree.RehypeMentions: the spans it creates are values, since nothing visits or changes them; documents where one element is the child of two; which elements are rewritten once the cap is reached.
- FoldHistory.FoldHistory: `JSON.parse` inside `parseWireMcpOutput`, which is any partial function; the accumulators are values replaced in a map, as nothing else refers to them; a `content` in a tool input that is not a string.
- FoldResults.EntriesEndWithTheLastResult: repeated call ids, for which the last entry made takes the results.
- ThreadView.Merge: the store, polling and stream status; tool calls, wire requests and errors of live cards, which the merge only copies.
- AttachmentModel.RunKeepsInv: the rendering between state updates; each update is one step, and uploads are answered in any order.
- AttachmentModel.AcceptedIsKnown: lower-casing of letters beyond ASCII in file extensions, and the wording of the size message.
- MemoryJournal.JournalReplays: rows and events other than identity, content, pin and times; filters and fixtures.
- Uuid.Uuidv7: the quality of the random bytes.
- `toneById` (a rolling hash that picks a colour), `dedupeById` (first entry per id), `formatBytes` and the tone and theme tables: display helpers that hold no state and that no other modelled part calls.
- Prompt versions and thread sequence numbers of the mock backend: a list that is appended to and a counter that is read and incremented, used by no other modelled part.
- Rendering, styles, translations, network calls, routes and pages.
