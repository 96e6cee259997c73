/** What each bubble shows, said about the rows and the roster alone: which
    calls and rows have a bubble, whose face it wears, and whom it is tagged to. */
module FoldFaces {
  import opened Results
  import opened ChatBody
  import opened FoldModel
  import opened FoldSteps
  import opened FoldSpec
  import opened FoldProof
  import opened FoldTheorems

  // ----- Names -----

  /** The name of the roster's last entry of that kind and id. */
  ghost predicate Listed(roster: seq<Mentionable>, agent: bool, id: string, name: Option<string>) {
    match name
    case None => forall i :: 0 <= i < |roster| ==> !IsEntry(roster[i], agent, id)
    case Some(n) => exists i :: 0 <= i < |roster| && IsEntry(roster[i], agent, id) && roster[i].name == n
                                && forall j :: i < j < |roster| ==> !IsEntry(roster[j], agent, id)
  }

  predicate IsEntry(m: Mentionable, agent: bool, id: string) {
    m.isAgent == agent && m.id == id
  }

  /** The name the roster gives a participant. */
  ghost predicate Knows(roster: seq<Mentionable>, p: Participant, name: Option<string>) {
    match p
    case Agent(_, Some(id)) => Listed(roster, true, id, name)
    case Human(_, Some(id)) => Listed(roster, false, id, name)
    case _ => name == None
  }

  /** A row's sender or receiver names a colleague: a human by the name the row
      shows, if any, and everyone else by the roster's. */
  ghost predicate Tells(roster: seq<Mentionable>, p: Option<Participant>, shown: Option<string>, colleague: string,
                        name: string) {
    && p.Some? && !p.value.System? && p.value.colleague == colleague && name != ""
    && if p.value.Human? && shown.Some? then name == shown.value else Knows(roster, p.value, Some(name))
  }

  /** A row names a colleague as its receiver, or else as its sender. */
  ghost predicate RowTells(roster: seq<Mentionable>, m: Row, colleague: string, name: string) {
    || Tells(roster, m.receiver, None, colleague, name)
    || (Tells(roster, Some(m.sender), m.displayName, colleague, name)
        && forall other :: !Tells(roster, m.receiver, None, colleague, other))
  }

  ghost predicate RowIsSilent(roster: seq<Mentionable>, m: Row, colleague: string) {
    forall name :: !RowTells(roster, m, colleague, name)
  }

  ghost predicate Silent(roster: seq<Mentionable>, h: seq<Row>, lo: nat, hi: nat, colleague: string) {
    forall i :: lo <= i < hi && i < |h| ==> RowIsSilent(roster, h[i], colleague)
  }

  /** The roster's last entry for the colleague. */
  ghost predicate OnRoster(roster: seq<Mentionable>, colleague: string, name: Option<string>) {
    match name
    case None => forall i :: 0 <= i < |roster| ==> roster[i].colleague != Some(colleague)
    case Some(n) => exists i :: 0 <= i < |roster| && roster[i].colleague == Some(colleague) && roster[i].name == n
                                && forall j :: i < j < |roster| ==> roster[j].colleague != Some(colleague)
  }

  /** What a colleague is called: by the last of the first `n` rows that names
      them, else by the roster. */
  ghost predicate Called(roster: seq<Mentionable>, h: seq<Row>, n: nat, colleague: string, name: Option<string>) {
    || (name.Some? && exists i: nat :: i < n && i < |h| && RowTells(roster, h[i], colleague, name.value)
                                       && Silent(roster, h, i + 1, n, colleague))
    || (Silent(roster, h, 0, n, colleague) && OnRoster(roster, colleague, name))
  }

  lemma {:induction false} ByIdIsListed(roster: seq<Mentionable>, agent: bool, id: string)
    ensures Listed(roster, agent, id, NameIn(ById(roster, agent), Some(id)))
  {
    if roster != [] {
      var n := |roster| - 1;
      ByIdIsListed(roster[..n], agent, id);
      ListedStep(roster, agent, id, NameIn(ById(roster[..n], agent), Some(id)));
    }
  }

  lemma {:induction false} ListedStep(roster: seq<Mentionable>, agent: bool, id: string, name: Option<string>)
    requires roster != [] && Listed(roster[..|roster| - 1], agent, id, name)
    ensures var m := roster[|roster| - 1];
      Listed(roster, agent, id, if m.isAgent == agent && m.id == id then Some(m.name) else name)
  {
    var n := |roster| - 1;
    assert forall i :: 0 <= i < n ==> roster[..n][i] == roster[i];
    if !(roster[n].isAgent == agent && roster[n].id == id) && name.Some? {
      var i :| 0 <= i < n && IsEntry(roster[..n][i], agent, id) && roster[..n][i].name == name.value
               && forall j :: i < j < n ==> !IsEntry(roster[..n][j], agent, id);
      assert IsEntry(roster[i], agent, id);
    }
  }

  lemma {:induction false} RosterNamesAre(roster: seq<Mentionable>, colleague: string)
    requires colleague != ""
    ensures OnRoster(roster, colleague, Lookup(RosterNames(roster), colleague))
  {
    if roster != [] {
      var n := |roster| - 1;
      RosterNamesAre(roster[..n], colleague);
      OnRosterStep(roster, colleague, Lookup(RosterNames(roster[..n]), colleague));
    }
  }

  lemma {:induction false} OnRosterStep(roster: seq<Mentionable>, colleague: string, name: Option<string>)
    requires roster != [] && OnRoster(roster[..|roster| - 1], colleague, name)
    ensures var m := roster[|roster| - 1];
      OnRoster(roster, colleague, if m.colleague == Some(colleague) then Some(m.name) else name)
  {
    var n := |roster| - 1;
    assert forall i :: 0 <= i < n ==> roster[..n][i] == roster[i];
    if roster[n].colleague != Some(colleague) && name.Some? {
      var i :| 0 <= i < n && roster[..n][i].colleague == Some(colleague) && roster[..n][i].name == name.value
               && forall j :: i < j < n ==> roster[..n][j].colleague != Some(colleague);
      assert roster[i].colleague == Some(colleague);
    }
  }

  /** The first pass collects names, receivers and failures; the rest it keeps. */
  ghost predicate FromRoster(env: Env, roster: seq<Mentionable>, poster: Poster) {
    env.agents == ById(roster, true) && env.humans == ById(roster, false) && env.poster == poster
  }

  lemma {:induction false} NotesKeep(roster: seq<Mentionable>, poster: Poster, rows: seq<Row>)
    ensures FromRoster(FirstPass(rows, roster, poster), roster, poster)
  {
    if rows != [] { NotesKeep(roster, poster, rows[..|rows| - 1]); }
  }

  lemma {:induction false} KnowsName(env: Env, roster: seq<Mentionable>, p: Participant, name: Option<string>)
    requires FromRoster(env, roster, env.poster)
    ensures Knows(roster, p, ParticipantName(Some(p), env.agents, env.humans))
    ensures Knows(roster, p, name) ==> name == ParticipantName(Some(p), env.agents, env.humans)
  {
    match p
    case Agent(_, Some(id)) =>
      ByIdIsListed(roster, true, id);
      OneListed(roster, true, id, name, NameIn(env.agents, Some(id)));
    case Human(_, Some(id)) =>
      ByIdIsListed(roster, false, id);
      OneListed(roster, false, id, name, NameIn(env.humans, Some(id)));
    case _ =>
  }

  lemma {:induction false} OneListed(roster: seq<Mentionable>, agent: bool, id: string, a: Option<string>,
                                     b: Option<string>)
    requires Listed(roster, agent, id, b)
    ensures Listed(roster, agent, id, a) ==> a == b
  {
  }

  /** What one note does to the name of a colleague. */
  lemma {:induction false} NoteTells(env: Env, roster: seq<Mentionable>, p: Option<Participant>, shown: Option<string>,
                                     colleague: string)
    requires FromRoster(env, roster, env.poster)
    ensures var after := Lookup(NoteColleague(env, p, shown).names, colleague);
      || (after.Some? && Tells(roster, p, shown, colleague, after.value))
      || (after == Lookup(env.names, colleague) && forall name :: !Tells(roster, p, shown, colleague, name))
  {
    hide Knows;
    if p.Some? {
      KnowsName(env, roster, p.value, None);
      forall name
        ensures Knows(roster, p.value, Some(name)) ==> Some(name) == ParticipantName(p, env.agents, env.humans)
      {
        KnowsName(env, roster, p.value, Some(name));
      }
    }
  }

  lemma {:induction false} NoteRowTells(env: Env, roster: seq<Mentionable>, m: Row, colleague: string)
    requires FromRoster(env, roster, env.poster)
    ensures var after := Lookup(NoteRow(env, m).names, colleague);
      || (after.Some? && RowTells(roster, m, colleague, after.value))
      || (after == Lookup(env.names, colleague) && RowIsSilent(roster, m, colleague))
  {
    hide Tells;
    var sent := NoteColleague(env, Some(m.sender), m.displayName);
    NoteTells(env, roster, Some(m.sender), m.displayName, colleague);
    NoteTells(sent, roster, m.receiver, None, colleague);
  }

  /** What the first pass calls a colleague is what the rows and the roster do. */
  lemma {:induction false} NamesAreCalled(roster: seq<Mentionable>, poster: Poster, h: seq<Row>, n: nat,
                                          colleague: string)
    requires n <= |h| && colleague != ""
    ensures Called(roster, h, n, colleague, Lookup(FirstPass(h[..n], roster, poster).names, colleague))
  {
    hide RowTells, RowIsSilent, OnRoster;
    if n == 0 {
      RosterNamesAre(roster, colleague);
    } else {
      NamesAreCalled(roster, poster, h, n - 1, colleague);
      assert h[..n][..n - 1] == h[..n - 1];
      NotesKeep(roster, poster, h[..n - 1]);
      NoteRowTells(FirstPass(h[..n - 1], roster, poster), roster, h[n - 1], colleague);
      CalledStep(roster, h, n, colleague, Lookup(FirstPass(h[..n - 1], roster, poster).names, colleague));
    }
  }

  lemma {:induction false} CalledStep(roster: seq<Mentionable>, h: seq<Row>, n: nat, colleague: string,
                                      name: Option<string>)
    requires 0 < n <= |h| && Called(roster, h, n - 1, colleague, name)
    ensures RowIsSilent(roster, h[n - 1], colleague) ==> Called(roster, h, n, colleague, name)
    ensures forall told :: RowTells(roster, h[n - 1], colleague, told) ==> Called(roster, h, n, colleague, Some(told))
  {
    hide RowTells, RowIsSilent, OnRoster;
  }

  // ----- Tags -----

  /** A posted message of an agent to someone, with that request and text. */
  predicate Carries(m: Row, requestId: Option<string>, content: string) {
    && m.posted && m.sender.Agent? && m.receiver.Some? && !m.receiver.value.System?
    && (if m.requestId.Some? then m.requestId.value else "") + " " + m.body.text
       == (if requestId.Some? then requestId.value else "") + " " + content
  }

  /** The colleague the last such message went to. */
  ghost predicate SentTo(h: seq<Row>, requestId: Option<string>, content: string, to: Option<string>) {
    match to
    case None => forall i :: 0 <= i < |h| ==> !Carries(h[i], requestId, content)
    case Some(c) => exists i :: 0 <= i < |h| && Carries(h[i], requestId, content) && h[i].receiver.value.colleague == c
                                && forall j :: i < j < |h| ==> !Carries(h[j], requestId, content)
  }

  /** Whom an agent's message is tagged to. */
  ghost predicate TagOf(roster: seq<Mentionable>, h: seq<Row>, requestId: Option<string>, content: string,
                        tag: Option<string>) {
    exists to: Option<string> :: SentTo(h, requestId, content, to)
                                 && if to == None || to == Some("") then tag == None
                                    else Called(roster, h, |h|, to.value, tag)
  }

  /** The content, with the tag before it unless it is there. */
  predicate Said(text: string, tag: Option<string>, content: string) {
    if tag == None || tag == Some("") || "@" + tag.value <= content then text == content
    else text == "@" + tag.value + " " + content
  }

  lemma {:induction false} TagIs(roster: seq<Mentionable>, poster: Poster, h: seq<Row>, requestId: Option<string>,
                                 content: string)
    ensures var env := FirstPass(h, roster, poster);
      var to := Or(Lookup(env.receivers, RecvKey(requestId, content)), "");
      TagOf(roster, h, requestId, content, if to == "" then None else Lookup(env.names, to))
  {
    hide Called;
    var env := FirstPass(h, roster, poster);
    var key := RecvKey(requestId, content);
    var to := Lookup(env.receivers, key);
    assert h[..|h|] == h;
    ReceiverIsLastPosted(StartEnv(roster, poster), h, |h|, key);
    assert forall i :: 0 <= i < |h| ==> (Posts(h[i], key) <==> Carries(h[i], requestId, content));
    assert SentTo(h, requestId, content, to);
    if to.Some? && to.value != "" { NamesAreCalled(roster, poster, h, |h|, to.value); }
  }

  // ----- Faces -----

  /** The number in decimal. */
  function Number(digits: string): nat
    requires forall i :: 0 <= i < |digits| ==> '0' <= digits[i] <= '9'
  {
    if digits == [] then 0
    else 10 * Number(digits[..|digits| - 1]) + (digits[|digits| - 1] as int - '0' as int)
  }

  lemma {:induction false} DigitsReadBack(n: nat)
    ensures Digits(n) != [] && (forall i :: 0 <= i < |Digits(n)| ==> '0' <= Digits(n)[i] <= '9')
    ensures Number(Digits(n)) == n
    ensures n > 0 ==> Digits(n)[0] != '0'
  {
    if n >= 10 {
      DigitsReadBack(n / 10);
      assert Digits(n)[..|Digits(n)| - 1] == Digits(n / 10);
    }
  }

  /** The bubble of an agent's call: its row's agent, time and request, and the
      call's content, tagged. */
  ghost predicate AgentFace(roster: seq<Mentionable>, h: seq<Row>, m: Row, c: ToolCall, f: Face) {
    && m.sender.Agent? && !f.human && f.agentId == m.sender.agent
    && (if m.sender.agent == None || m.sender.agent == Some("") then f.agentName == None
        else Listed(roster, true, m.sender.agent.value, f.agentName))
    && f.humanName == None && f.humanId == None && f.humanAvatar == None && f.clientKey == None
    && f.key == "h:" + Digits(m.seqNo) + ":" + c.id && f.ts == m.createdAt && f.attachments == []
    && f.requestId == (if m.requestId.Some? then m.requestId.value else "seq:" + Digits(m.seqNo))
    && var content := if c.input.content.Some? then c.input.content.value else "";
       exists tag: Option<string> :: TagOf(roster, h, m.requestId, content, tag) && Said(f.text, tag, content)
  }

  /** The author a human's row names: the viewer only where the row does not say. */
  predicate WrittenBy(m: Row, poster: Poster, name: string, id: string, avatar: Option<string>) {
    && m.sender.Human? && avatar == m.avatarUrl
    && name == (if m.displayName.Some? then m.displayName.value else poster.name)
    && id == (if m.sender.user.Some? then m.sender.user.value else poster.id)
  }

  ghost predicate HumanSaid(roster: seq<Mentionable>, m: Row, text: string) {
    exists tag: Option<string> :: (if m.receiver.Some? then Knows(roster, m.receiver.value, tag) else tag == None)
                                  && Said(text, tag, m.body.text)
  }

  ghost predicate PersonFace(roster: seq<Mentionable>, m: Row, poster: Poster, f: Face) {
    && f.human && f.agentId == None && f.agentName == None && f.humanName.Some? && f.humanId.Some?
    && WrittenBy(m, poster, f.humanName.value, f.humanId.value, f.humanAvatar)
    && f.key == "h:" + Digits(m.seqNo) + ":user" && f.clientKey == m.clientKey && f.ts == m.createdAt
    && f.requestId == (if m.requestId.Some? then m.requestId.value
                       else if m.clientKey.Some? then m.clientKey.value else "seq:" + Digits(m.seqNo))
    && f.attachments == m.body.attachments && HumanSaid(roster, m, f.text)
  }

  ghost predicate RootFace(roster: seq<Mentionable>, m: Row, poster: Poster, r: Root) {
    && WrittenBy(m, poster, r.name, r.id, r.avatarUrl) && r.ts == m.createdAt
    && r.attachments == m.body.attachments && HumanSaid(roster, m, r.text)
  }

  lemma {:induction false} CallFaceIs(roster: seq<Mentionable>, poster: Poster, h: seq<Row>, m: Row, c: ToolCall)
    requires m.sender.Agent?
    ensures AgentFace(roster, h, m, c, CallFace(FirstPass(h, roster, poster), m, c))
  {
    hide TagOf, Listed, FirstPass, ById, Digits, RecvKey;
    NotesKeep(roster, poster, h);
    var content := if c.input.content.Some? then c.input.content.value else "";
    TagIs(roster, poster, h, m.requestId, content);
    if m.sender.agent.Some? { ByIdIsListed(roster, true, m.sender.agent.value); }
  }

  lemma {:induction false} HumanTextIs(roster: seq<Mentionable>, poster: Poster, h: seq<Row>, m: Row)
    ensures HumanSaid(roster, m, HumanText(FirstPass(h, roster, poster), m))
  {
    hide FirstPass, Knows;
    NotesKeep(roster, poster, h);
    var env := FirstPass(h, roster, poster);
    var tag := ParticipantName(m.receiver, env.agents, env.humans);
    if m.receiver.Some? {
      KnowsName(env, roster, m.receiver.value, None);
      assert m.receiver == Some(m.receiver.value);
    }
    assert Said(HumanText(env, m), tag, m.body.text);
  }

  lemma {:induction false} HumanFaceIs(roster: seq<Mentionable>, poster: Poster, h: seq<Row>, m: Row)
    requires m.sender.Human?
    ensures PersonFace(roster, m, poster, HumanFace(FirstPass(h, roster, poster), m))
    ensures RootFace(roster, m, poster, RootOf(FirstPass(h, roster, poster), m))
  {
    hide FirstPass, HumanText, HumanSaid, Digits;
    NotesKeep(roster, poster, h);
    HumanTextIs(roster, poster, h, m);
  }

  // ----- The calls of a row -----

  ghost function Kept<T(!new)>(s: seq<T>, keep: T -> bool, lo: nat): seq<nat>
    requires lo <= |s|
    decreases |s| - lo
  {
    if lo == |s| then [] else (if keep(s[lo]) then [lo] else []) + Kept(s, keep, lo + 1)
  }

  ghost predicate Increasing(at: seq<nat>) {
    forall j, k :: 0 <= j < k < |at| ==> at[j] < at[k]
  }

  /** `picked` are the elements of `s` at the places `at`. */
  ghost predicate AreAt<T(!new)>(s: seq<T>, at: seq<nat>, picked: seq<T>) {
    |picked| == |at| && forall j :: 0 <= j < |at| ==> at[j] < |s| && picked[j] == s[at[j]]
  }

  lemma {:induction false} KeptAre<T(!new)>(s: seq<T>, keep: T -> bool, lo: nat)
    requires lo <= |s|
    ensures Increasing(Kept(s, keep, lo)) && AreAt(s, Kept(s, keep, lo), Filter(s[lo..], keep))
    ensures forall k: nat :: k in Kept(s, keep, lo) <==> lo <= k < |s| && keep(s[k])
    decreases |s| - lo
  {
    if lo < |s| {
      KeptAre(s, keep, lo + 1);
      assert s[lo..][1..] == s[lo + 1..];
      var rest := Kept(s, keep, lo + 1);
      assert forall j :: 0 <= j < |rest| ==> rest[j] in rest;
      KeptCons(s, lo, rest, Filter(s[lo + 1..], keep));
    }
  }

  /** One more element at the front. */
  lemma {:induction false} KeptCons<T(!new)>(s: seq<T>, lo: nat, rest: seq<nat>, picked: seq<T>)
    requires lo < |s| && Increasing(rest) && AreAt(s, rest, picked) && forall k :: k in rest ==> lo < k
    ensures Increasing([lo] + rest) && AreAt(s, [lo] + rest, [s[lo]] + picked)
  {
    assert forall j :: 0 <= j < |rest| ==> rest[j] in rest;
  }

  lemma {:induction false} FilterTwice<T(!new)>(s: seq<T>, f: T -> bool, g: T -> bool, both: T -> bool)
    requires forall x :: both(x) <==> f(x) && g(x)
    ensures Filter(Filter(s, f), g) == Filter(s, both)
    decreases |s|
  {
    if s != [] {
      FilterTwice(s[1..], f, g, both);
      var rest := Filter(s[1..], f);
      if f(s[0]) { assert ([s[0]] + rest)[1..] == rest; } else { assert Filter(s, f) == rest; }
    }
  }

  ghost function Sent(failed: set<string>): ToolCall -> bool {
    (c: ToolCall) => c.name == "send_message" && c.id !in failed
  }

  /** The calls of a row that send, those that get an entry, and those
      delivered, each in order. */
  lemma {:induction false} CallsOfARow(failed: set<string>, m: Row)
      returns (sends: seq<nat>, own: seq<nat>, delivered: seq<nat>)
    ensures var calls := m.body.toolCalls;
      && Increasing(sends) && AreAt(calls, sends, Sends(m))
      && (forall k: nat :: k in sends <==> k < |calls| && calls[k].name == "send_message")
      && Increasing(own) && AreAt(calls, own, RealCalls(m))
      && (forall k: nat :: k in own <==> k < |calls| && calls[k].name != "send_message")
      && Increasing(delivered) && AreAt(calls, delivered, Delivered(failed, m))
      && (forall k: nat :: k in delivered
            <==> k < |calls| && calls[k].name == "send_message" && calls[k].id !in failed)
      && delivered == Kept(calls, Sent(failed), 0)
  {
    var calls := m.body.toolCalls;
    assert calls[0..] == calls;
    KeptAre(calls, IsSend, 0);
    KeptAre(calls, IsReal, 0);
    KeptAre(calls, Sent(failed), 0);
    FilterTwice(calls, IsSend, NotIn(failed), Sent(failed));
    sends, own, delivered := Kept(calls, IsSend, 0), Kept(calls, IsReal, 0), Kept(calls, Sent(failed), 0);
  }

  // ----- Which bubbles there are -----

  /** A call of a row, or the row itself. */
  datatype Place = Place(row: nat, call: Option<nat>)

  predicate Before(a: Place, b: Place) {
    a.row < b.row || (a.row == b.row && a.call.Some? && b.call.Some? && a.call.value < b.call.value)
  }

  /** The place has a bubble: a send that no error answers, or a human's row
      that says something, an earlier one being the root. */
  ghost predicate Shows(h: seq<Row>, p: Place) {
    p.row < |h|
    && match p.call
       case Some(k) => h[p.row].sender.Agent? && k < |h[p.row].body.toolCalls|
                       && h[p.row].body.toolCalls[k].name == "send_message"
                       && !FailedIn(h, h[p.row].body.toolCalls[k].id)
       case None => h[p.row].sender.Human? && (h[p.row].body.text != "" || h[p.row].body.attachments != [])
                    && exists i :: 0 <= i < p.row && h[i].sender.Human?
  }

  function CallPlaces(i: nat, at: seq<nat>): seq<Place> {
    seq(|at|, (k: nat) requires k < |at| => Place(i, Some(at[k])))
  }

  ghost function PlacesOf(failed: set<string>, h: seq<Row>, i: nat): seq<Place>
    requires i < |h|
  {
    match h[i].sender
    case Agent(_, _) => CallPlaces(i, Kept(h[i].body.toolCalls, Sent(failed), 0))
    case Human(_, _) => if Shows(h, Place(i, None)) then [Place(i, None)] else []
    case System => []
  }

  ghost function Places(failed: set<string>, h: seq<Row>, n: nat): seq<Place>
    requires n <= |h|
  {
    if n == 0 then [] else Places(failed, h, n - 1) + PlacesOf(failed, h, n - 1)
  }

  /** The origin is the place. */
  ghost predicate SamePlace(h: seq<Row>, o: Origin, p: Place) {
    o.row == p.row < |h|
    && if p.call.Some? then p.call.value < |h[p.row].body.toolCalls|
                            && o.call == Some(h[p.row].body.toolCalls[p.call.value])
       else o.call == None
  }

  lemma {:induction false} PlacesOfAre(failed: set<string>, h: seq<Row>, i: nat, k: nat)
    requires i < |h| && k < |OriginsOf(failed, h, i)|
    requires forall id :: id in failed <==> FailedIn(h, id)
    ensures |PlacesOf(failed, h, i)| == |OriginsOf(failed, h, i)|
    ensures SamePlace(h, OriginsOf(failed, h, i)[k], PlacesOf(failed, h, i)[k])
  {
    if h[i].sender.Agent? { var _, _, _ := CallsOfARow(failed, h[i]); }
  }

  lemma {:induction false} PlacesCount(failed: set<string>, h: seq<Row>, i: nat)
    requires i < |h|
    ensures |PlacesOf(failed, h, i)| == |OriginsOf(failed, h, i)|
  {
    if h[i].sender.Agent? { var _, _, _ := CallsOfARow(failed, h[i]); }
  }

  /** The call shows: it sends, and no error answers it. */
  lemma {:induction false} CallShows(failed: set<string>, h: seq<Row>, i: nat, k: nat)
    requires i < |h| && h[i].sender.Agent? && forall id :: id in failed <==> FailedIn(h, id)
    ensures Shows(h, Place(i, Some(k))) <==> k in Kept(h[i].body.toolCalls, Sent(failed), 0)
  {
    KeptAre(h[i].body.toolCalls, Sent(failed), 0);
  }

  lemma {:induction false} CallPlacesAre(i: nat, at: seq<nat>, p: Place)
    ensures p in CallPlaces(i, at) <==> p.row == i && p.call.Some? && p.call.value in at
  {
    if p.row == i && p.call.Some? && p.call.value in at {
      var k: nat :| k < |at| && at[k] == p.call.value;
      assert CallPlaces(i, at)[k] == p;
    }
  }

  /** A row's places are those that show, in order. */
  lemma {:induction false} PlacesOfShow(failed: set<string>, h: seq<Row>, i: nat)
    requires i < |h| && forall id :: id in failed <==> FailedIn(h, id)
    ensures InOrder(PlacesOf(failed, h, i))
    ensures forall p: Place :: p in PlacesOf(failed, h, i) <==> p.row == i && Shows(h, p)
  {
    if h[i].sender.Agent? {
      var at := Kept(h[i].body.toolCalls, Sent(failed), 0);
      KeptAre(h[i].body.toolCalls, Sent(failed), 0);
      forall p: Place | p.row == i
        ensures p in PlacesOf(failed, h, i) <==> Shows(h, p)
      {
        CallPlacesAre(i, at, p);
        if p.call.Some? { CallShows(failed, h, i, p.call.value); }
      }
    }
  }

  ghost predicate InOrder(places: seq<Place>) {
    forall j, k :: 0 <= j < k < |places| ==> Before(places[j], places[k])
  }

  lemma {:induction false} PlacesShow(failed: set<string>, h: seq<Row>, n: nat)
    requires n <= |h| && forall id :: id in failed <==> FailedIn(h, id)
    ensures InOrder(Places(failed, h, n))
    ensures forall p: Place :: p in Places(failed, h, n) <==> p.row < n && Shows(h, p)
    decreases n
  {
    hide Shows, FailedIn, PlacesOf;
    if n > 0 {
      PlacesShow(failed, h, n - 1);
      PlacesOfShow(failed, h, n - 1);
      var before, row := Places(failed, h, n - 1), PlacesOf(failed, h, n - 1);
      assert forall j :: 0 <= j < |before| ==> before[j] in before;
      assert forall j :: 0 <= j < |row| ==> row[j] in row;
    }
  }

  lemma {:induction false} PlacesAreOrigins(failed: set<string>, h: seq<Row>, n: nat)
    requires n <= |h| && forall id :: id in failed <==> FailedIn(h, id)
    ensures var places, origins := Places(failed, h, n), Origins(failed, h, n);
      |places| == |origins| && forall j :: 0 <= j < |places| ==> SamePlace(h, origins[j], places[j])
    decreases n
  {
    hide PlacesOf, OriginsOf, SamePlace, FailedIn;
    if n > 0 {
      var m := n - 1;
      PlacesAreOrigins(failed, h, m);
      PlacesCount(failed, h, m);
      forall k | 0 <= k < |OriginsOf(failed, h, m)|
        ensures SamePlace(h, OriginsOf(failed, h, m)[k], PlacesOf(failed, h, m)[k])
      {
        PlacesOfAre(failed, h, m, k);
      }
    }
  }

  // ----- The whole list -----

  /** The bubble wears the face of its place. */
  ghost predicate Wears(roster: seq<Mentionable>, h: seq<Row>, poster: Poster, p: Place, f: Face) {
    && Shows(h, p)
    && match p.call
       case Some(k) => AgentFace(roster, h, h[p.row], h[p.row].body.toolCalls[k], f)
       case None => PersonFace(roster, h[p.row], poster, f)
  }

  /** For every thread, roster and viewer: one bubble per place that shows, in
      row then call order, each with its own row's face. */
  lemma {:induction false} FacesAreTheirRows(roster: seq<Mentionable>, poster: Poster, h: seq<Row>)
      returns (places: seq<Place>)
    ensures InOrder(places) && forall p: Place :: p in places <==> Shows(h, p)
    ensures var bubbles := Fold(FirstPass(h, roster, poster), h).bubbles;
      |bubbles| == |places|
      && forall j :: 0 <= j < |places| ==> Wears(roster, h, poster, places[j], bubbles[j].face)
  {
    hide Fold, FirstPass, Origins, Places, Shows, FailedIn, AgentFace, PersonFace;
    var env := FirstPass(h, roster, poster);
    FailedAre(roster, poster, h);
    places := Places(env.failed, h, |h|);
    PlacesShow(env.failed, h, |h|);
    PlacesAreOrigins(env.failed, h, |h|);
    BubbleList(env, h);
    assert forall p: Place :: p in places ==> p.row < |h|;
    assert forall p: Place :: Shows(h, p) ==> p.row < |h| by { ShownInside(h); }
    forall j | 0 <= j < |places|
      ensures Wears(roster, h, poster, places[j], Fold(env, h).bubbles[j].face)
    {
      assert places[j] in places;
      FaceAt(roster, poster, h, Origins(env.failed, h, |h|)[j], places[j]);
    }
  }

  lemma {:induction false} ShownInside(h: seq<Row>)
    ensures forall p: Place :: Shows(h, p) ==> p.row < |h|
  {
  }

  lemma {:induction false} FailedAre(roster: seq<Mentionable>, poster: Poster, h: seq<Row>)
    ensures forall id :: id in FirstPass(h, roster, poster).failed <==> FailedIn(h, id)
  {
    forall id
      ensures id in FirstPass(h, roster, poster).failed <==> FailedIn(h, id)
    {
      FailedExactly(StartEnv(roster, poster), h, id);
    }
  }

  lemma {:induction false} FaceAt(roster: seq<Mentionable>, poster: Poster, h: seq<Row>, o: Origin, p: Place)
    requires OriginOk(h, |h|, o) && SamePlace(h, o, p) && Shows(h, p)
    ensures Wears(roster, h, poster, p, FaceOf(FirstPass(h, roster, poster), h, o))
  {
    hide FirstPass, AgentFace, PersonFace, FailedIn, CallFace, HumanFace;
    match p.call
    case Some(k) => CallFaceIs(roster, poster, h, h[p.row], h[p.row].body.toolCalls[k]);
    case None => HumanFaceIs(roster, poster, h, h[p.row]);
  }

  /** The root is the first human row, and there is one just when a human wrote. */
  lemma {:induction false} RootIsTheFirstHuman(roster: seq<Mentionable>, poster: Poster, h: seq<Row>)
    ensures match Fold(FirstPass(h, roster, poster), h).root
      case None => forall i :: 0 <= i < |h| ==> !h[i].sender.Human?
      case Some(r) => exists i :: 0 <= i < |h| && RootFace(roster, h[i], poster, r)
                                  && forall j :: 0 <= j < i ==> !h[j].sender.Human?
  {
    hide Fold, FirstPass, CallsAre, PendingsAre, LastsAre, BubblesAre, RootFace, RootOf;
    var env := FirstPass(h, roster, poster);
    FoldInv(env, h, |h|);
    assert h[..|h|] == h;
    var s := Fold(env, h);
    assert RootIs(env, h, |h|, s);
    if s.root.Some? {
      var i :| 0 <= i < |h| && h[i].sender.Human? && !AnyHuman(h, i) && s.root.value == RootOf(env, h[i]);
      HumanFaceIs(roster, poster, h, h[i]);
    }
  }

  // ----- Who is looking -----

  /** Every human's row says who wrote it. */
  ghost predicate Signed(h: seq<Row>) {
    forall i :: 0 <= i < |h| && h[i].sender.Human? ==> h[i].displayName.Some? && h[i].sender.user.Some?
  }

  /** The thread looks the same to every viewer when its human rows are signed. */
  lemma {:induction false} SameForEveryViewer(roster: seq<Mentionable>, h: seq<Row>, a: Poster, b: Poster)
    requires Signed(h)
    ensures Fold(FirstPass(h, roster, a), h) == Fold(FirstPass(h, roster, b), h)
  {
    hide FirstPass;
    ViewersDiffer(roster, h, a, b);
    SameFold(FirstPass(h, roster, a), b, h, |h|);
    assert h[..|h|] == h;
  }

  lemma {:induction false} ViewersDiffer(roster: seq<Mentionable>, rows: seq<Row>, a: Poster, b: Poster)
    ensures FirstPass(rows, roster, b) == FirstPass(rows, roster, a).(poster := b)
  {
    if rows != [] {
      ViewersDiffer(roster, rows[..|rows| - 1], a, b);
      NoteForAnyone(FirstPass(rows[..|rows| - 1], roster, a), rows[|rows| - 1], b);
    }
  }

  lemma {:induction false} NoteForAnyone(env: Env, m: Row, b: Poster)
    ensures NoteRow(env.(poster := b), m) == NoteRow(env, m).(poster := b)
  {
    hide PostedDelivery, RecvKey, ErrorIds;
    OneNoteForAnyone(env, Some(m.sender), m.displayName, b);
    OneNoteForAnyone(NoteColleague(env, Some(m.sender), m.displayName), m.receiver, None, b);
  }

  lemma {:induction false} OneNoteForAnyone(env: Env, p: Option<Participant>, shown: Option<string>, b: Poster)
    ensures NoteColleague(env.(poster := b), p, shown) == NoteColleague(env, p, shown).(poster := b)
  {
  }

  lemma {:induction false} SameFold(env: Env, b: Poster, h: seq<Row>, n: nat)
    requires Signed(h) && n <= |h|
    ensures Fold(env.(poster := b), h[..n]) == Fold(env, h[..n])
    decreases n
  {
    hide FoldRow;
    if n > 0 {
      SameFold(env, b, h, n - 1);
      assert h[..n][..n - 1] == h[..n - 1] && h[..n][n - 1] == h[n - 1];
      SameRow(env, b, Fold(env, h[..n - 1]), h[n - 1]);
    }
  }

  lemma {:induction false} SameRow(env: Env, b: Poster, s: State, m: Row)
    requires InRange(s) && (m.sender.Human? ==> m.displayName.Some? && m.sender.user.Some?)
    ensures FoldRow(env.(poster := b), s, m) == FoldRow(env, s, m)
  {
    if m.sender.Agent? {
      var p := PendingOf(Opened(s, m), Who(m));
      var marked := Opened(s, m).(sendIds := Opened(s, m).sendIds + IdsOf(Sends(m)));
      SameEmits(env, b, marked, m, JoinText(p.reasoning, m.body.reasoning), p.tools, Delivered(env.failed, m));
    }
  }

  lemma {:induction false} SameEmits(env: Env, b: Poster, s: State, m: Row, reasoning: string, tools: seq<nat>,
                                     calls: seq<ToolCall>)
    requires m.sender.Agent?
    ensures EmitAll(env.(poster := b), s, m, reasoning, tools, calls) == EmitAll(env, s, m, reasoning, tools, calls)
  {
    if calls != [] { SameEmits(env, b, s, m, reasoning, tools, calls[..|calls| - 1]); }
  }
}
