/** The cards of the merged view, said about the bubbles, the live replies and
    the posts alone. */
module ViewCards {
  import opened Results
  import opened ChatBody
  import opened FoldModel
  import opened StableSort
  import opened ThreadView

  // ----- What a card shows -----

  ghost predicate IsPersisted(bubbles: seq<Bubble>, c: Card) {
    c.phase == Persisted && exists b :: b in bubbles && c.face == b.face && c.reasoning == b.reasoning
  }

  /** The name of the first agent of the roster with that id. */
  ghost predicate FirstNamed(roster: seq<Mentionable>, id: Option<string>, name: Option<string>) {
    match name
    case None => forall i :: 0 <= i < |roster| && roster[i].isAgent ==> Some(roster[i].id) != id
    case Some(n) => exists i :: 0 <= i < |roster| && roster[i].isAgent && Some(roster[i].id) == id
                                && roster[i].name == n
                                && forall j :: 0 <= j < i && roster[j].isAgent ==> Some(roster[j].id) != id
  }

  /** A live reply, no persisted bubble answering its request. */
  ghost predicate IsLive(roster: seq<Mentionable>, bubbles: seq<Bubble>, lb: LiveAgent, c: Card) {
    && (forall b :: b in bubbles ==> b.face.requestId != lb.requestId)
    && c.phase == Streaming && !c.face.human && c.face.key == "live:" + lb.requestId
    && c.face.requestId == lb.requestId && c.face.clientKey == None && c.face.agentId == lb.agentId
    && FirstNamed(roster, lb.agentId, c.face.agentName)
    && c.face.humanName == None && c.face.humanId == None && c.face.humanAvatar == None
    && c.face.ts == lb.ts && c.face.text == lb.message && c.reasoning == lb.reasoning && c.face.attachments == []
  }

  /** A post with something to show, no persisted bubble echoing its key or its request. */
  ghost predicate IsPending(poster: Poster, bubbles: seq<Bubble>, p: PendingHuman, c: Card) {
    && (p.text != "" || p.attachments != [])
    && (p.idempotencyKey == "" || forall b :: b in bubbles ==> b.face.clientKey != Some(p.idempotencyKey))
    && (p.requestId == None || p.requestId == Some("")
        || forall b :: b in bubbles ==> Some(b.face.requestId) != p.requestId)
    && c.phase == Optimistic && c.face.human && c.face.key == "opt:" + p.idempotencyKey
    && c.face.requestId == (if p.requestId.Some? then p.requestId.value else p.idempotencyKey)
    && c.face.clientKey == Some(p.idempotencyKey) && c.face.agentId == None && c.face.agentName == None
    && c.face.humanName == Some(poster.name) && c.face.humanId == Some(poster.id)
    && c.face.humanAvatar == poster.avatarUrl
    && c.face.ts == p.ts && c.face.text == p.text && c.reasoning == "" && c.face.attachments == p.attachments
  }

  lemma {:induction false} FirstNameIs(roster: seq<Mentionable>, id: Option<string>)
    ensures FirstNamed(roster, id, FirstName(roster, id))
    decreases |roster|
  {
    if roster != [] {
      FirstNameIs(roster[1..], id);
      FirstNamedStep(roster, id, FirstName(roster[1..], id));
    }
  }

  lemma {:induction false} FirstNamedStep(roster: seq<Mentionable>, id: Option<string>, name: Option<string>)
    requires roster != [] && FirstNamed(roster[1..], id, name)
    ensures FirstNamed(roster, id, if roster[0].isAgent && Some(roster[0].id) == id then Some(roster[0].name) else name)
  {
    if !(roster[0].isAgent && Some(roster[0].id) == id) {
      assert forall j :: 0 < j < |roster| ==> roster[j] == roster[1..][j - 1];
      if name.Some? {
        var i :| 0 <= i < |roster[1..]| && roster[1..][i].isAgent && Some(roster[1..][i].id) == id
                 && roster[1..][i].name == name.value
                 && forall j :: 0 <= j < i && roster[1..][j].isAgent ==> Some(roster[1..][j].id) != id;
        assert roster[i + 1].isAgent && Some(roster[i + 1].id) == id;
      }
    }
  }

  lemma {:induction false} OneFirstName(roster: seq<Mentionable>, id: Option<string>, a: Option<string>,
                                        b: Option<string>)
    requires FirstNamed(roster, id, a) && FirstNamed(roster, id, b)
    ensures a == b
  {
  }

  lemma {:induction false} LiveCardIs(roster: seq<Mentionable>, bubbles: seq<Bubble>, lb: LiveAgent, c: Card)
    ensures IsLive(roster, bubbles, lb, c) <==> LiveShows(RequestIds(bubbles), lb) && c == LiveCard(roster, lb)
  {
    hide FirstNamed;
    FirstNameIs(roster, lb.agentId);
    if IsLive(roster, bubbles, lb, c) {
      OneFirstName(roster, lb.agentId, c.face.agentName, FirstName(roster, lb.agentId));
    }
    assert forall b :: b in bubbles ==> b.face.requestId in RequestIds(bubbles);
  }

  lemma {:induction false} PendingCardIs(poster: Poster, bubbles: seq<Bubble>, p: PendingHuman, c: Card)
    ensures IsPending(poster, bubbles, p, c)
       <==> PendingShows(RequestIds(bubbles), ClientKeys(bubbles), p) && c == PendingCard(poster, p)
  {
    assert forall b :: b in bubbles ==> b.face.requestId in RequestIds(bubbles);
    KeyIsThere(bubbles, p.idempotencyKey);
  }

  lemma {:induction false} KeyIsThere(bubbles: seq<Bubble>, key: string)
    ensures key in ClientKeys(bubbles) <==> key != "" && exists b :: b in bubbles && b.face.clientKey == Some(key)
  {
    if key in ClientKeys(bubbles) {
      var b :| b in bubbles && b.face.clientKey.Some? && b.face.clientKey.value == key;
    }
  }

  lemma {:induction false} PersistedCardIs(bubbles: seq<Bubble>, c: Card)
    ensures c in PersistedCards(bubbles) <==> IsPersisted(bubbles, c)
  {
    if IsPersisted(bubbles, c) {
      var b :| b in bubbles && c.face == b.face && c.reasoning == b.reasoning;
      var j :| 0 <= j < |bubbles| && bubbles[j] == b;
      assert PersistedCards(bubbles)[j] == c;
    }
  }

  // ----- The view -----

  ghost predicate IsShown(roster: seq<Mentionable>, poster: Poster, bubbles: seq<Bubble>, live: seq<LiveAgent>,
                          pending: seq<PendingHuman>, c: Card) {
    || IsPersisted(bubbles, c)
    || (exists lb :: lb in live && IsLive(roster, bubbles, lb, c))
    || (exists p :: p in pending && IsPending(poster, bubbles, p, c))
  }

  /** The view shows these cards and no others. */
  lemma {:induction false} ViewShows(roster: seq<Mentionable>, poster: Poster, bubbles: seq<Bubble>,
                                     live: seq<LiveAgent>, pending: seq<PendingHuman>, c: Card)
    ensures c in Sort(ByTs, Cards(roster, poster, bubbles, live, pending))
       <==> IsShown(roster, poster, bubbles, live, pending, c)
  {
    hide Sort, ByTs, LiveCards, PendingCards, PersistedCards, IsPersisted, IsLive, IsPending;
    hide LiveShows, PendingShows, LiveCard, PendingCard;
    var cards := Cards(roster, poster, bubbles, live, pending);
    SortHolds(ByTs, cards);
    assert c in multiset(Sort(ByTs, cards)) <==> c in multiset(cards);
    PersistedCardIs(bubbles, c);
    ShownExactly(roster, poster, RequestIds(bubbles), ClientKeys(bubbles), live, pending, c);
    forall lb
      ensures IsLive(roster, bubbles, lb, c) <==> LiveShows(RequestIds(bubbles), lb) && c == LiveCard(roster, lb)
    {
      LiveCardIs(roster, bubbles, lb, c);
    }
    forall p
      ensures IsPending(poster, bubbles, p, c)
         <==> PendingShows(RequestIds(bubbles), ClientKeys(bubbles), p) && c == PendingCard(poster, p)
    {
      PendingCardIs(poster, bubbles, p, c);
    }
  }

  /** Earlier cards first; of one time, persisted before streaming before optimistic. */
  predicate NotAfter(a: Card, b: Card) {
    || a.face.ts < b.face.ts
    || (a.face.ts == b.face.ts
        && (a.phase == Persisted || b.phase == Optimistic || (a.phase == Streaming && b.phase == Streaming)))
  }

  lemma {:induction false} ViewIsInOrder(roster: seq<Mentionable>, poster: Poster, bubbles: seq<Bubble>,
                                         live: seq<LiveAgent>, pending: seq<PendingHuman>)
    ensures var view := Sort(ByTs, Cards(roster, poster, bubbles, live, pending));
      forall i, j :: 0 <= i < j < |view| ==> NotAfter(view[i], view[j])
  {
    hide Sort, Cards;
    var cards := Cards(roster, poster, bubbles, live, pending);
    SortIsStable(ByTs, cards);
    assert Sorted(ByTs, Sort(ByTs, cards));
  }
}
