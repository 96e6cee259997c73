/** The thread as shown: persisted bubbles, live replies and posts not yet
    echoed, merged by time. */
module ThreadView {
  import opened Results
  import opened ChatBody
  import opened FoldModel
  import opened FoldProof
  import opened FoldTheorems
  import opened StableSort

  datatype Phase = Persisted | Streaming | Optimistic

  datatype Card = Card(phase: Phase, face: Face, reasoning: string)

  datatype LiveAgent = LiveAgent(requestId: string, agentId: Option<string>, ts: int, message: string,
                                 reasoning: string)

  datatype PendingHuman = PendingHuman(idempotencyKey: string, requestId: Option<string>, triggered: Option<bool>,
                                       text: string, attachments: seq<Attachment>, ts: int)

  function PhaseOrder(p: Phase): int {
    match p case Persisted => 0 case Streaming => 1 case Optimistic => 2
  }

  /** The comparison the view is sorted by. */
  predicate ByTs(a: Card, b: Card) {
    if a.face.ts != b.face.ts then a.face.ts <= b.face.ts else PhaseOrder(a.phase) <= PhaseOrder(b.phase)
  }

  predicate ByTimeAlone(a: Card, b: Card) {
    a.face.ts <= b.face.ts
  }

  // ----- What is hidden -----

  function RequestIds(bubbles: seq<Bubble>): set<string> {
    set b | b in bubbles :: b.face.requestId
  }

  function ClientKeys(bubbles: seq<Bubble>): set<string> {
    set b | b in bubbles && b.face.clientKey.Some? && b.face.clientKey.value != "" :: b.face.clientKey.value
  }

  predicate LiveShows(requestIds: set<string>, lb: LiveAgent) {
    lb.requestId !in requestIds
  }

  predicate PendingShows(requestIds: set<string>, clientKeys: set<string>, p: PendingHuman) {
    && p.idempotencyKey !in clientKeys
    && !(p.requestId.Some? && p.requestId.value != "" && p.requestId.value in requestIds)
    && (p.text != "" || p.attachments != [])
  }

  /** The name of the first agent of the roster with that id. */
  function FirstName(roster: seq<Mentionable>, id: Option<string>): Option<string> {
    if roster == [] || id.None? then None
    else if roster[0].isAgent && roster[0].id == id.value then Some(roster[0].name)
    else FirstName(roster[1..], id)
  }

  function LiveCard(roster: seq<Mentionable>, lb: LiveAgent): Card {
    Card(Streaming, Face(false, "live:" + lb.requestId, lb.requestId, None, lb.agentId, FirstName(roster, lb.agentId),
                         None, None, None, lb.ts, lb.message, []), lb.reasoning)
  }

  function PendingCard(poster: Poster, p: PendingHuman): Card {
    Card(Optimistic, Face(true, "opt:" + p.idempotencyKey, Or(p.requestId, p.idempotencyKey), Some(p.idempotencyKey),
        None, None,
                          Some(poster.name), Some(poster.id), poster.avatarUrl, p.ts, p.text, p.attachments), "")
  }

  function PersistedCards(bubbles: seq<Bubble>): seq<Card> {
    seq(|bubbles|, (j: nat) requires j < |bubbles| => Card(Persisted, bubbles[j].face, bubbles[j].reasoning))
  }

  function LiveCards(roster: seq<Mentionable>, requestIds: set<string>, live: seq<LiveAgent>): seq<Card> {
    if live == [] then []
    else LiveCards(roster, requestIds, live[..|live| - 1])
         + if LiveShows(requestIds, live[|live| - 1]) then [LiveCard(roster, live[|live| - 1])] else []
  }

  function PendingCards(poster: Poster, requestIds: set<string>, clientKeys: set<string>,
                        pending: seq<PendingHuman>): seq<Card> {
    if pending == [] then []
    else PendingCards(poster, requestIds, clientKeys, pending[..|pending| - 1])
         + if PendingShows(requestIds, clientKeys, pending[|pending| - 1])
             then [PendingCard(poster, pending[|pending| - 1])] else []
  }

  /** The three phases, one after the other. */
  function Cards(roster: seq<Mentionable>, poster: Poster, bubbles: seq<Bubble>, live: seq<LiveAgent>,
                 pending: seq<PendingHuman>): seq<Card> {
    PersistedCards(bubbles) + LiveCards(roster, RequestIds(bubbles), live)
    + PendingCards(poster, RequestIds(bubbles), ClientKeys(bubbles), pending)
  }

  /** The pending entry of a key; the store keeps one per key. */
  function Find(pending: seq<PendingHuman>, key: string): Option<PendingHuman> {
    if pending == [] then None else if pending[0].idempotencyKey == key then Some(pending[0])
                               else Find(pending[1..], key)
  }

  predicate Thinking(view: seq<Card>, pending: seq<PendingHuman>) {
    view != [] &&
    var last := view[|view| - 1];
    var entry := if Or(last.face.clientKey, "") == "" then None else Find(pending, last.face.clientKey.value);
    last.face.human && last.phase != Persisted && (entry.None? || Or(entry.value.triggered, true))
  }

  method Merge(roster: seq<Mentionable>, poster: Poster, bubbles: seq<Bubble>, live: seq<LiveAgent>,
               pending: seq<PendingHuman>)
    returns (view: seq<Card>, showThinking: bool)
    ensures view == Sort(ByTs, Cards(roster, poster, bubbles, live, pending)) && showThinking == Thinking(view, pending)
  {
    var requestIds, clientKeys := RequestIds(bubbles), ClientKeys(bubbles);
    var liveBubbles: seq<Card> := [];
    for i := 0 to |live|
      invariant liveBubbles == LiveCards(roster, requestIds, live[..i])
    {
      assert live[..i + 1][..i] == live[..i];
      if live[i].requestId in requestIds {
        continue;
      }
      liveBubbles := liveBubbles + [LiveCard(roster, live[i])];
    }
    assert live[..|live|] == live;
    var optimisticBubbles: seq<Card> := [];
    for i := 0 to |pending|
      invariant optimisticBubbles == PendingCards(poster, requestIds, clientKeys, pending[..i])
    {
      var p := pending[i];
      assert pending[..i + 1][..i] == pending[..i];
      if p.idempotencyKey in clientKeys {
        continue;
      }
      if p.requestId.Some? && p.requestId.value != "" && p.requestId.value in requestIds {
        continue;
      }
      if p.text == "" && |p.attachments| == 0 {
        continue;
      }
      optimisticBubbles := optimisticBubbles + [PendingCard(poster, p)];
    }
    assert pending[..|pending|] == pending;
    view := Sort(ByTs, PersistedCards(bubbles) + liveBubbles + optimisticBubbles);
    showThinking := Thinking(view, pending);
  }

  // ----- The order -----

  /** The view holds each card once, by time then phase, and otherwise in the
      order the phases list them; and any stable sort gives the same view. */
  lemma {:induction false} ViewIsStable(roster: seq<Mentionable>, poster: Poster, bubbles: seq<Bubble>,
                                        live: seq<LiveAgent>, pending: seq<PendingHuman>)
    ensures var cards := Cards(roster, poster, bubbles, live, pending);
      && StablySorts(ByTs, cards, Sort(ByTs, cards)) && multiset(Sort(ByTs, cards)) == multiset(cards)
      && forall other :: StablySorts(ByTs, cards, other) ==> other == Sort(ByTs, cards)
  {
    var cards := Cards(roster, poster, bubbles, live, pending);
    SortIsStable(ByTs, cards);
    forall other | StablySorts(ByTs, cards, other)
      ensures other == Sort(ByTs, cards)
    {
      OneStableSort(ByTs, other, Sort(ByTs, cards));
    }
  }

  lemma {:induction false} PhasesOf(roster: seq<Mentionable>, poster: Poster, requestIds: set<string>,
                                    clientKeys: set<string>, live: seq<LiveAgent>, pending: seq<PendingHuman>)
    ensures forall c :: c in LiveCards(roster, requestIds, live) ==> c.phase == Streaming
    ensures forall c :: c in PendingCards(poster, requestIds, clientKeys, pending) ==> c.phase == Optimistic
    decreases |live| + |pending|
  {
    if live != [] {
      PhasesOf(roster, poster, requestIds, clientKeys, live[..|live| - 1], pending);
    } else if pending != [] {
      PhasesOf(roster, poster, requestIds, clientKeys, live, pending[..|pending| - 1]);
    }
  }

  /** The phases being listed in their order, breaking ties by phase changes
      nothing: a stable sort by time alone gives the same view. */
  lemma {:induction false} PhaseTieBreakIsIdle(roster: seq<Mentionable>, poster: Poster, bubbles: seq<Bubble>,
                                          live: seq<LiveAgent>, pending: seq<PendingHuman>)
    ensures var cards := Cards(roster, poster, bubbles, live, pending); Sort(ByTs, cards) == Sort(ByTimeAlone, cards)
  {
    var cards := Cards(roster, poster, bubbles, live, pending);
    var a, b, c := PersistedCards(bubbles), LiveCards(roster, RequestIds(bubbles), live),
                   PendingCards(poster, RequestIds(bubbles), ClientKeys(bubbles), pending);
    PhasesOf(roster, poster, RequestIds(bubbles), ClientKeys(bubbles), live, pending);
    forall i | 0 <= i < |cards|
      ensures PhaseOrder(cards[i].phase) == if i < |a| then 0 else if i < |a| + |b| then 1 else 2
    {
      if i >= |a| + |b| {
        assert cards[i] == c[i - |a| - |b|];
      } else if i >= |a| {
        assert cards[i] == b[i - |a|];
      }
    }
    TieBreakIsIdle(ByTs, ByTimeAlone, cards);
  }

  // ----- Hiding -----

  /** A live or optimistic card is shown just when its entry is not hidden. */
  lemma {:induction false} ShownExactly(roster: seq<Mentionable>, poster: Poster, requestIds: set<string>,
                                        clientKeys: set<string>, live: seq<LiveAgent>, pending: seq<PendingHuman>,
                                            c: Card)
    ensures c in LiveCards(roster, requestIds, live)
            <==> exists lb :: lb in live && LiveShows(requestIds, lb) && c == LiveCard(roster, lb)
    ensures c in PendingCards(poster, requestIds, clientKeys, pending)
       <==> exists p :: p in pending && PendingShows(requestIds, clientKeys, p) && c == PendingCard(poster, p)
    decreases |live| + |pending|
  {
    if live != [] {
      var n := |live| - 1;
      ShownExactly(roster, poster, requestIds, clientKeys, live[..n], pending, c);
      assert live == live[..n] + [live[n]];
    } else if pending != [] {
      var n := |pending| - 1;
      ShownExactly(roster, poster, requestIds, clientKeys, live, pending[..n], c);
      assert pending == pending[..n] + [pending[n]];
    }
  }

  /** No live reply shares its request, and no optimistic post its client key
      or attached request, with a persisted bubble. */
  lemma {:induction false} NoTwins(roster: seq<Mentionable>, poster: Poster, bubbles: seq<Bubble>, live: seq<LiveAgent>,
                                   pending: seq<PendingHuman>, c: Card, b: Bubble)
    requires c in Sort(ByTs, Cards(roster, poster, bubbles, live, pending)) && b in bubbles
    ensures c.phase == Streaming ==> c.face.requestId != b.face.requestId
    ensures c.phase == Optimistic ==>
              exists p :: p in pending && c == PendingCard(poster, p)
                && (p.idempotencyKey != "" ==> b.face.clientKey != Some(p.idempotencyKey))
                && (p.requestId.Some? && p.requestId.value != "" ==> b.face.requestId != p.requestId.value)
  {
    hide Sort, LiveCards, PendingCards, ByTs;
    var cards := Cards(roster, poster, bubbles, live, pending);
    SortHolds(ByTs, cards);
    assert c in multiset(Sort(ByTs, cards));
    assert c in cards;
    PhasesOf(roster, poster, RequestIds(bubbles), ClientKeys(bubbles), live, pending);
    ShownExactly(roster, poster, RequestIds(bubbles), ClientKeys(bubbles), live, pending, c);
    if c.phase == Optimistic {
      var p :| p in pending && PendingShows(RequestIds(bubbles), ClientKeys(bubbles), p) && c == PendingCard(poster, p);
      assert b.face.requestId in RequestIds(bubbles);
    }
  }

  // ----- Thinking -----

  ghost predicate OnePerKey(pending: seq<PendingHuman>) {
    forall i, j :: 0 <= i < j < |pending| ==> pending[i].idempotencyKey != pending[j].idempotencyKey
  }

  lemma {:induction false} FindIs(pending: seq<PendingHuman>, p: PendingHuman)
    requires OnePerKey(pending) && p in pending
    ensures Find(pending, p.idempotencyKey) == Some(p)
    decreases |pending|
  {
    if pending[0] != p {
      assert p in pending[1..];
      var j :| 0 <= j < |pending[1..]| && pending[1..][j] == p;
      assert pending[0].idempotencyKey != pending[j + 1].idempotencyKey;
      FindIs(pending[1..], p);
    }
  }

  lemma {:induction false} StreamingIsAgents(roster: seq<Mentionable>, requestIds: set<string>, live: seq<LiveAgent>)
    ensures forall c :: c in LiveCards(roster, requestIds, live) ==> !c.face.human
    decreases |live|
  {
    if live != [] { StreamingIsAgents(roster, requestIds, live[..|live| - 1]); }
  }

  lemma {:induction false} PostsAreOptimistic(roster: seq<Mentionable>, poster: Poster, bubbles: seq<Bubble>,
                                          live: seq<LiveAgent>, pending: seq<PendingHuman>, c: Card)
    requires c in Cards(roster, poster, bubbles, live, pending) && c.face.human && c.phase != Persisted
    ensures exists p :: p in pending && c == PendingCard(poster, p)
  {
    StreamingIsAgents(roster, RequestIds(bubbles), live);
    ShownExactly(roster, poster, RequestIds(bubbles), ClientKeys(bubbles), live, pending, c);
  }

  /** The last card of the view is one of the cards. */
  lemma {:induction false} LastIsACard(cards: seq<Card>)
    requires Sort(ByTs, cards) != []
    ensures Sort(ByTs, cards)[|Sort(ByTs, cards)| - 1] in cards
  {
    var view := Sort(ByTs, cards);
    SortHolds(ByTs, cards);
    assert view[|view| - 1] in multiset(view);
  }

  predicate InFlight(p: PendingHuman) {
    p.idempotencyKey == "" || p.triggered != Some(false)
  }

  lemma {:induction false} ThinkingOfPost(poster: Poster, view: seq<Card>, pending: seq<PendingHuman>, p: PendingHuman)
    requires OnePerKey(pending) && p in pending && view != [] && view[|view| - 1] == PendingCard(poster, p)
    ensures Thinking(view, pending) <==> InFlight(p)
  {
    FindIs(pending, p);
  }

  /** "Thinking" shows just when the view ends with a post still in flight, or
      one that woke an agent. */
  lemma {:induction false} ThinkingExactly(roster: seq<Mentionable>, poster: Poster, bubbles: seq<Bubble>,
                                          live: seq<LiveAgent>, pending: seq<PendingHuman>)
    requires OnePerKey(pending)
    ensures var view := Sort(ByTs, Cards(roster, poster, bubbles, live, pending));
      Thinking(view, pending)
      <==> view != [] && exists p :: p in pending && view[|view| - 1] == PendingCard(poster, p) && InFlight(p)
  {
    var view := Sort(ByTs, Cards(roster, poster, bubbles, live, pending));
    if Thinking(view, pending) {
      LastIsACard(Cards(roster, poster, bubbles, live, pending));
      PostsAreOptimistic(roster, poster, bubbles, live, pending, view[|view| - 1]);
      var p :| p in pending && view[|view| - 1] == PendingCard(poster, p);
      ThinkingOfPost(poster, view, pending, p);
    } else if p :| p in pending && view != [] && view[|view| - 1] == PendingCard(poster, p) && InFlight(p) {
      ThinkingOfPost(poster, view, pending, p);
    }
  }

  // ----- Keys over the merged view -----

  function CardKey(): Card -> string {
    (c: Card) => c.face.key
  }

  ghost predicate OnePerRequest(live: seq<LiveAgent>) {
    forall i, j :: 0 <= i < j < |live| ==> live[i].requestId != live[j].requestId
  }

  lemma {:induction false} LiveKeys(roster: seq<Mentionable>, requestIds: set<string>, live: seq<LiveAgent>)
    requires OnePerRequest(live)
    ensures KeysApart(LiveCards(roster, requestIds, live), CardKey())
    ensures forall c :: c in LiveCards(roster, requestIds, live)
                        ==> exists lb :: lb in live && c.face.key == "live:" + lb.requestId
    decreases |live|
  {
    if live != [] {
      var n := |live| - 1;
      LiveKeys(roster, requestIds, live[..n]);
      forall lb | lb in live[..n]
        ensures lb in live && "live:" + lb.requestId != "live:" + live[n].requestId
      {
        assert ("live:" + lb.requestId)[5..] == lb.requestId;
        assert ("live:" + live[n].requestId)[5..] == live[n].requestId;
      }
      assert live[n] in live;
    }
  }

  lemma {:induction false} PendingKeys(poster: Poster, requestIds: set<string>, clientKeys: set<string>,
                                       pending: seq<PendingHuman>)
    requires OnePerKey(pending)
    ensures KeysApart(PendingCards(poster, requestIds, clientKeys, pending), CardKey())
    ensures forall c :: c in PendingCards(poster, requestIds, clientKeys, pending)
                        ==> exists p :: p in pending && c.face.key == "opt:" + p.idempotencyKey
    decreases |pending|
  {
    if pending != [] {
      var n := |pending| - 1;
      PendingKeys(poster, requestIds, clientKeys, pending[..n]);
      forall p | p in pending[..n]
        ensures p in pending && "opt:" + p.idempotencyKey != "opt:" + pending[n].idempotencyKey
      {
        assert ("opt:" + p.idempotencyKey)[4..] == p.idempotencyKey;
        assert ("opt:" + pending[n].idempotencyKey)[4..] == pending[n].idempotencyKey;
      }
      assert pending[n] in pending;
    }
  }

  lemma {:induction false} PersistedKeysApart(env: Env, h: seq<Row>)
    requires Numbered(h)
    ensures KeysApart(PersistedCards(Fold(env, h).bubbles), CardKey())
    ensures forall c :: c in PersistedCards(Fold(env, h).bubbles) ==> c.face.key != "" && c.face.key[0] == 'h'
  {
    hide Fold;
    var bubbles := Fold(env, h).bubbles;
    KeysAreNames(env, h);
    forall j, k | 0 <= j < k < |bubbles|
      ensures bubbles[j].face.key != bubbles[k].face.key
    {
      KeysAreDistinct(env, h, j, k);
    }
  }

  lemma {:induction false} JoinApart(a: seq<Card>, b: seq<Card>)
    requires KeysApart(a, CardKey()) && KeysApart(b, CardKey())
    requires forall x, y :: x in a && y in b ==> x.face.key != y.face.key
    ensures KeysApart(a + b, CardKey())
  {
    forall i, j | 0 <= i < j < |a + b|
      ensures CardKey()((a + b)[i]) != CardKey()((a + b)[j])
    {
      if i < |a| <= j { assert (a + b)[i] in a && (a + b)[j] in b; }
    }
  }

  /** No two bubbles of the merged view have one key, when rows are numbered
      apart, calls of a row have distinct ids, and there is one live reply for
      a request and one post for a key. */
  lemma {:induction false} MergedKeysAreDistinct(roster: seq<Mentionable>, poster: Poster, h: seq<Row>,
                                                 live: seq<LiveAgent>, pending: seq<PendingHuman>)
    requires Numbered(h) && OnePerRequest(live) && OnePerKey(pending)
    ensures var bubbles := Fold(FirstPass(h, roster, poster), h).bubbles;
      KeysApart(Sort(ByTs, Cards(roster, poster, bubbles, live, pending)), CardKey())
  {
    hide Fold, ByTs, LiveCards, PendingCards, PersistedCards;
    var bubbles := Fold(FirstPass(h, roster, poster), h).bubbles;
    var a, b, c := PersistedCards(bubbles), LiveCards(roster, RequestIds(bubbles), live),
                   PendingCards(poster, RequestIds(bubbles), ClientKeys(bubbles), pending);
    PersistedKeysApart(FirstPass(h, roster, poster), h);
    LiveKeys(roster, RequestIds(bubbles), live);
    PendingKeys(poster, RequestIds(bubbles), ClientKeys(bubbles), pending);
    assert forall x :: x in b ==> x.face.key[0] == 'l';
    assert forall x :: x in c ==> x.face.key[0] == 'o';
    JoinApart(a, b);
    assert forall x :: x in a + b ==> x in a || x in b;
    JoinApart(a + b, c);
    SortKeepsApart(ByTs, a + b + c, CardKey());
  }

  // ----- When the persisted ids grow -----

  function NameRequest(h: seq<Row>, name: Name): string
    requires name.0 < |h|
  {
    var m := h[name.0];
    if m.requestId.Some? then m.requestId.value
    else if name.1.Some? then "seq:" + Digits(m.seqNo) else Or(m.clientKey, "seq:" + Digits(m.seqNo))
  }

  ghost predicate FaceHas(h: seq<Row>, name: Name, face: Face) {
    && name.0 < |h| && face.requestId == NameRequest(h, name)
    && face.clientKey == if name.1.Some? then None else h[name.0].clientKey
  }

  lemma {:induction false} FacesAreNames(env: Env, h: seq<Row>)
    ensures var s, names := Fold(env, h), Names(env.failed, h, 0, |h|);
      |s.bubbles| == |names| && forall j :: 0 <= j < |names| ==> FaceHas(h, names[j], s.bubbles[j].face)
  {
    BubbleList(env, h);
    NamesAreOrigins(env.failed, h, |h|);
    forall j | 0 <= j < |Names(env.failed, h, 0, |h|)|
      ensures FaceHas(h, Names(env.failed, h, 0, |h|)[j], Fold(env, h).bubbles[j].face)
    {
      assert OriginOk(h, |h|, Origins(env.failed, h, |h|)[j]);
    }
  }

  // ----- Which request ids and client keys stay -----

  ghost function PersistedRequests(roster: seq<Mentionable>, poster: Poster, h: seq<Row>): set<string> {
    RequestIds(Fold(FirstPass(h, roster, poster), h).bubbles)
  }

  ghost function PersistedKeys(roster: seq<Mentionable>, poster: Poster, h: seq<Row>): set<string> {
    ClientKeys(Fold(FirstPass(h, roster, poster), h).bubbles)
  }

  ghost predicate Bears(h: seq<Row>, name: Name, r: string) {
    name.0 < |h| && NameRequest(h, name) == r
  }

  /** Some name that is not of a failed send carries the request. */
  ghost predicate Carries(failed: set<string>, h: seq<Row>, names: seq<Name>, r: string) {
    exists name :: name in names && Alive(failed, name) && Bears(h, name, r)
  }

  /** The names of the bubbles shown of `h`. */
  ghost function Shown(roster: seq<Mentionable>, poster: Poster, h: seq<Row>): seq<Name> {
    Names(FirstPass(h, roster, poster).failed, h, 0, |h|)
  }

  /** After rows `more` no bubble carries the request: each one shown before that
      did is of a send now reported failed, and `more` has none that does. */
  ghost predicate Lost(roster: seq<Mentionable>, poster: Poster, h: seq<Row>, more: seq<Row>, r: string) {
    var failed := FirstPass(h + more, roster, poster).failed;
    && !Carries(failed, h, Shown(roster, poster, h), r)
    && !Carries(failed, h + more, Names(failed, h + more, |h|, |h + more|), r)
  }

  lemma {:induction false} NamesAlive(failed: set<string>, h: seq<Row>, lo: nat, n: nat)
    requires lo <= n <= |h|
    ensures forall name :: name in Names(failed, h, lo, n) ==> name.0 < n && Alive(failed, name)
    decreases n
  {
    hide NamesOf, Alive;
    if lo < n {
      NamesAlive(failed, h, lo, n - 1);
      RowAlive(failed, h, n - 1);
    }
  }

  lemma {:induction false} RowAlive(failed: set<string>, h: seq<Row>, i: nat)
    requires i < |h|
    ensures forall name :: name in NamesOf(failed, h, i) ==> name.0 == i && Alive(failed, name)
  {
    if h[i].sender.Agent? { CallsAlive(failed, i, Sends(h[i])); }
  }

  lemma {:induction false} CallsAlive(failed: set<string>, i: nat, calls: seq<ToolCall>)
    ensures forall name :: name in CallNames(i, Filter(calls, NotIn(failed))) ==> name.0 == i && Alive(failed, name)
    decreases |calls|
  {
    if calls != [] {
      CallsAlive(failed, i, calls[1..]);
      FilterCons(calls, NotIn(failed));
    }
  }

  lemma {:induction false} RequestIdsAre(env: Env, h: seq<Row>, r: string)
    ensures r in RequestIds(Fold(env, h).bubbles) <==> Carries(env.failed, h, Names(env.failed, h, 0, |h|), r)
  {
    var bubbles, names := Fold(env, h).bubbles, Names(env.failed, h, 0, |h|);
    FacesAreNames(env, h);
    NamesAlive(env.failed, h, 0, |h|);
    if j :| 0 <= j < |bubbles| && bubbles[j].face.requestId == r {
      assert names[j] in names && Bears(h, names[j], r);
    }
    if k :| 0 <= k < |names| && Bears(h, names[k], r) {
      assert bubbles[k] in bubbles;
    }
  }

  lemma {:induction false} SurvivorsAre(failed: set<string>, names: seq<Name>, name: Name)
    ensures name in Survivors(failed, names) <==> name in names && Alive(failed, name)
    decreases |names|
  {
    if names != [] {
      SurvivorsAre(failed, names[1..], name);
      assert names == [names[0]] + names[1..];
    }
  }

  /** After more rows: the old names of no failed send, and the new ones. */
  lemma {:induction false} NamesAfter(roster: seq<Mentionable>, poster: Poster, h: seq<Row>, more: seq<Row>, name: Name)
    ensures var failed := FirstPass(h + more, roster, poster).failed;
      name in Shown(roster, poster, h + more)
      <==> (name in Shown(roster, poster, h) && Alive(failed, name)) || name in Names(failed, h + more, |h|, |h + more|)
    ensures name in Shown(roster, poster, h) ==> name.0 < |h| && (h + more)[name.0] == h[name.0]
  {
    AppendKeepsBubbles(roster, poster, h, more);
    SurvivorsAre(FirstPass(h + more, roster, poster).failed, Shown(roster, poster, h), name);
    NamesAlive(FirstPass(h, roster, poster).failed, h, 0, |h|);
  }

  /** After more rows a request id is persisted just when it is not lost. */
  lemma {:induction false} RequestIdsAfter(roster: seq<Mentionable>, poster: Poster, h: seq<Row>, more: seq<Row>,
                                          r: string)
    ensures r in PersistedRequests(roster, poster, h + more) <==> !Lost(roster, poster, h, more, r)
  {
    var env' := FirstPass(h + more, roster, poster);
    RequestIdsAre(env', h + more, r);
    NamesAlive(env'.failed, h + more, |h|, |h + more|);
    forall name
      ensures name in Shown(roster, poster, h + more)
        <==> ((name in Shown(roster, poster, h) && Alive(env'.failed, name))
              || name in Names(env'.failed, h + more, |h|, |h + more|))
      ensures name in Shown(roster, poster, h) ==> Bears(h, name, r) == Bears(h + more, name, r)
    {
      NamesAfter(roster, poster, h, more, name);
    }
  }

  /** The bubble is shown, and the new rows report its send as failed. */
  ghost predicate Fails(roster: seq<Mentionable>, poster: Poster, h: seq<Row>, more: seq<Row>, name: Name) {
    name in Shown(roster, poster, h) && !Alive(FirstPass(h + more, roster, poster).failed, name)
  }

  /** The persisted request ids grow just when every shown send that the new
      rows report as failed has its request carried by another bubble. */
  lemma {:induction false} RequestIdsGrow(roster: seq<Mentionable>, poster: Poster, h: seq<Row>, more: seq<Row>)
    ensures PersistedRequests(roster, poster, h) <= PersistedRequests(roster, poster, h + more)
      <==> forall name, r :: Fails(roster, poster, h, more, name) && Bears(h, name, r)
             ==> !Lost(roster, poster, h, more, r)
  {
    var failed := FirstPass(h, roster, poster).failed;
    NamesAlive(failed, h, 0, |h|);
    forall r
      ensures r in PersistedRequests(roster, poster, h) <==> Carries(failed, h, Shown(roster, poster, h), r)
      ensures r in PersistedRequests(roster, poster, h + more) <==> !Lost(roster, poster, h, more, r)
    {
      RequestIdsAre(FirstPass(h, roster, poster), h, r);
      RequestIdsAfter(roster, poster, h, more, r);
    }
  }

  /** After more rows a live reply is shown, a hidden one again, just when no
      bubble carries its request. */
  lemma {:induction false} LiveReturnsExactly(roster: seq<Mentionable>, poster: Poster, h: seq<Row>, more: seq<Row>,
                                          lb: LiveAgent)
    ensures LiveShows(PersistedRequests(roster, poster, h + more), lb) <==> Lost(roster, poster, h, more, lb.requestId)
  {
    RequestIdsAfter(roster, poster, h, more, lb.requestId);
  }

  // ----- Client keys -----

  lemma {:induction false} ClientKeysAre(env: Env, h: seq<Row>, key: string)
    ensures key in ClientKeys(Fold(env, h).bubbles)
       <==> key != "" && exists name :: name in Names(env.failed, h, 0, |h|) && HasKey(h, name, key)
  {
    var bubbles, names := Fold(env, h).bubbles, Names(env.failed, h, 0, |h|);
    FacesAreNames(env, h);
    if j :| 0 <= j < |bubbles| && bubbles[j].face.clientKey == Some(key) {
      assert names[j] in names && HasKey(h, names[j], key);
    }
    if k :| 0 <= k < |names| && HasKey(h, names[k], key) {
      assert bubbles[k] in bubbles;
    }
  }

  /** The row is a person's and carries the key. */
  ghost predicate HasKey(h: seq<Row>, name: Name, key: string) {
    name.0 < |h| && name.1.None? && h[name.0].clientKey == Some(key)
  }

  /** Client keys only grow: no bubble of a person is ever taken away. */
  lemma {:induction false} ClientKeysGrow(roster: seq<Mentionable>, poster: Poster, h: seq<Row>, more: seq<Row>)
    ensures PersistedKeys(roster, poster, h) <= PersistedKeys(roster, poster, h + more)
  {
    forall key | key in PersistedKeys(roster, poster, h)
      ensures key in PersistedKeys(roster, poster, h + more)
    {
      ClientKeysAre(FirstPass(h, roster, poster), h, key);
      ClientKeysAre(FirstPass(h + more, roster, poster), h + more, key);
      var name :| name in Shown(roster, poster, h) && HasKey(h, name, key);
      NamesAfter(roster, poster, h, more, name);
      assert HasKey(h + more, name, key);
    }
  }

  /** A hidden post is shown again just when it has something to show, no
      persisted key hides it, and the request that hid it is lost. */
  lemma {:induction false} PendingReturnsExactly(roster: seq<Mentionable>, poster: Poster, h: seq<Row>, more: seq<Row>,
                                          p: PendingHuman)
    requires !PendingShows(PersistedRequests(roster, poster, h), PersistedKeys(roster, poster, h), p)
    ensures PendingShows(PersistedRequests(roster, poster, h + more), PersistedKeys(roster, poster, h + more), p)
      <==> (p.text != "" || p.attachments != []) && p.idempotencyKey !in PersistedKeys(roster, poster, h + more)
           && p.requestId.Some? && p.requestId.value != "" && Lost(roster, poster, h, more, p.requestId.value)
  {
    ClientKeysGrow(roster, poster, h, more);
    if p.requestId.Some? { RequestIdsAfter(roster, poster, h, more, p.requestId.value); }
  }

  /** No hidden entry ever returns just when the persisted request ids grow. */
  lemma {:induction false} HiddenStaysHidden(roster: seq<Mentionable>, poster: Poster, h: seq<Row>, more: seq<Row>)
    ensures var ids, ids' := PersistedRequests(roster, poster, h), PersistedRequests(roster, poster, h + more);
      var keys, keys' := PersistedKeys(roster, poster, h), PersistedKeys(roster, poster, h + more);
      ids <= ids' <==> && (forall lb :: LiveShows(ids', lb) ==> LiveShows(ids, lb))
                       && (forall p :: PendingShows(ids', keys', p) ==> PendingShows(ids, keys, p))
  {
    var ids, ids' := PersistedRequests(roster, poster, h), PersistedRequests(roster, poster, h + more);
    ClientKeysGrow(roster, poster, h, more);
    if r :| r in ids && r !in ids' {
      assert LiveShows(ids', LiveAgent(r, None, 0, "", ""));
      assert !LiveShows(ids, LiveAgent(r, None, 0, "", ""));
    }
  }

  // ----- A request lost -----

  const SEND := ToolCall("c", SEND_MESSAGE, Input(Some("hi"), ""))
  const SENT: Row := Message(1, false, Agent("colleague", Some("agent")), None, Decoded("", "", [SEND], [], []), 1,
      Some("r"), None, None, None)
  const REFUSED: Row := Message(2, false, System, None, Decoded("", "", [], [ToolResult("c", "", Some(true))], []), 2,
      None, None, None, None)
  const LIVE := LiveAgent("r", None, 1, "hi", "")

  lemma {:induction false} FilterSingle<T>(x: T, keep: T -> bool)
    ensures Filter([x], keep) == if keep(x) then [x] else []
  {
    assert [x][1..] == [];
  }

  lemma {:induction false} SentAndRefused()
    ensures Sends(SENT) == [SEND]
    ensures ErrorIn(REFUSED, "c")
  {
    FilterSingle(SEND, IsSend);
    assert REFUSED.body.toolResults[0] == ToolResult("c", "", Some(true));
  }

  lemma {:induction false} SendSurvives(failed: set<string>, h: seq<Row>)
    requires h != [] && h[0] == SENT
    ensures NamesOf(failed, h, 0) == if "c" in failed then [] else [(0, Some(SEND))]
  {
    SentAndRefused();
    FilterSingle(SEND, NotIn(failed));
    assert [SEND][1..] == [] && CallNames(0, [SEND]) == [(0, Some(SEND))];
  }

  /** A send first shown, then reported failed, takes its request id away, and
      the live reply it had hidden is shown again. */
  lemma {:induction false} FailedSendUncoversLive(roster: seq<Mentionable>, poster: Poster)
    ensures !LiveShows(RequestIds(Fold(FirstPass([SENT], roster, poster), [SENT]).bubbles), LIVE)
    ensures LiveShows(RequestIds(Fold(FirstPass([SENT, REFUSED], roster, poster), [SENT, REFUSED]).bubbles), LIVE)
  {
    var h, h' := [SENT], [SENT, REFUSED];
    var env, env' := FirstPass(h, roster, poster), FirstPass(h', roster, poster);
    SentAndRefused();
    FailedExactly(StartEnv(roster, poster), h, "c");
    FailedExactly(StartEnv(roster, poster), h', "c");
    assert "c" !in env.failed by { assert !ErrorIn(h[0], "c"); }
    assert "c" in env'.failed by { assert ErrorIn(h'[1], "c"); }
    SendSurvives(env.failed, h);
    SendSurvives(env'.failed, h');
    assert Names(env.failed, h, 0, 0) == [] == Names(env'.failed, h', 0, 0);
    assert Names(env.failed, h, 0, 1) == [(0, Some(SEND))];
    assert Names(env'.failed, h', 0, 1) == [];
    assert Names(env'.failed, h', 0, 2) == [];
    FacesAreNames(env, h);
    FacesAreNames(env', h');
    assert Fold(env, h).bubbles[0].face.requestId == "r";
  }
}
