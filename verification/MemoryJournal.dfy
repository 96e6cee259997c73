/** An agent's memories and the journal of their changes: rows are changed and
    events added, and replaying the events gives the rows. */
module MemoryJournal {
  import opened Results

  datatype MemRow = MemRow(id: string, kind: string, content: string, state: string, pinned: bool, createdAt: int)

  datatype Mutation = Write | Update | Forget

  datatype MemEvent = MemEvent(id: string, mutation: Mutation, target: string, before: Option<string>,
                               after: Option<string>,
                               source: string, createdAt: int)

  /** One agent's rows and events, both newest first. */
  datatype Book = Book(rows: seq<MemRow>, events: seq<MemEvent>)

  // ----- Operations on one book -----

  function FindRow(rows: seq<MemRow>, id: string): Option<nat> {
    if rows == [] then None
    else if rows[0].id == id then Some(0)
    else var k := FindRow(rows[1..], id); if k.Some? then Some(k.value + 1) else None
  }

  function FindEvent(events: seq<MemEvent>, id: string): Option<MemEvent> {
    if events == [] then None else if events[0].id == id then Some(events[0]) else FindEvent(events[1..], id)
  }

  function Without(rows: seq<MemRow>, id: string): seq<MemRow> {
    if rows == [] then [] else (if rows[0].id == id then [] else [rows[0]]) + Without(rows[1..], id)
  }

  function Created(b: Book, row: MemRow, eventId: string): Book {
    Book([row] + b.rows,
        [MemEvent(eventId, Write, row.id, None, Some(row.content), "operator", row.createdAt)] + b.events)
  }

  function Pinned(b: Book, id: string, pinned: bool): Option<Book> {
    match FindRow(b.rows, id)
    case None => None
    case Some(k) => FindRowBound(b.rows, id); Some(b.(rows := b.rows[k := b.rows[k].(pinned := pinned)]))
  }

  lemma {:induction false} FindRowBound(rows: seq<MemRow>, id: string)
    ensures FindRow(rows, id).Some? ==> FindRow(rows, id).value < |rows| && rows[FindRow(rows, id).value].id == id
    ensures FindRow(rows, id).None? ==> forall k :: 0 <= k < |rows| ==> rows[k].id != id
  {
    if rows != [] && rows[0].id != id {
      FindRowBound(rows[1..], id);
      assert forall k :: 1 <= k < |rows| ==> rows[k] == rows[1..][k - 1];
    }
  }

  /** Undoing an event appends its inverse; a forgotten memory stays forgotten. */
  function Reverted(b: Book, evt: MemEvent, newId: string, now: int): Book {
    match evt.mutation
    case Write =>
      Book(Without(b.rows, evt.target),
          [MemEvent(newId, Forget, evt.target, evt.after, None, "operator", now)] + b.events)
    case Update =>
      if evt.before.None? || evt.before.value == "" then b
      else
        (match FindRow(b.rows, evt.target)
         case None => b
         case Some(k) =>
           FindRowBound(b.rows, evt.target);
           Book(b.rows[k := b.rows[k].(content := evt.before.value)],
                [MemEvent(newId, Update, evt.target, evt.after, evt.before, "operator", now)] + b.events))
    case Forget => b
  }

  // ----- Replaying the journal -----

  /** The content of each memory. */
  function Contents(rows: seq<MemRow>): map<string, string> {
    if rows == [] then map[] else Contents(rows[1..])[rows[0].id := rows[0].content]
  }

  /** What an event does to the contents. */
  function Replay(m: map<string, string>, e: MemEvent): map<string, string> {
    match e.mutation
    case Write => if e.after.Some? then m[e.target := e.after.value] else m
    case Update => if e.target in m && e.after.Some? then m[e.target := e.after.value] else m
    case Forget => m - {e.target}
  }

  /** Oldest first, that is from the end. */
  function ReplayAll(m: map<string, string>, events: seq<MemEvent>): map<string, string> {
    if events == [] then m else Replay(ReplayAll(m, events[1..]), events[0])
  }

  ghost predicate DistinctRows(rows: seq<MemRow>) {
    forall i, j :: 0 <= i < j < |rows| ==> rows[i].id != rows[j].id
  }

  datatype Op =
    | Create(row: MemRow, eventId: string)
    | Pin(id: string, pinned: bool)
    | Revert(target: string, newId: string, now: int)

  function Step(b: Book, op: Op): Book {
    match op
    case Create(row, eventId) => Created(b, row, eventId)
    case Pin(id, pinned) => var r := Pinned(b, id, pinned); if r.Some? then r.value else b
    case Revert(target, newId, now) =>
      var e := FindEvent(b.events, target); if e.Some? then Reverted(b, e.value, newId, now) else b
  }

  /** A new memory's id is new. */
  ghost predicate Legal(b: Book, op: Op) {
    op.Create? ==> forall k :: 0 <= k < |b.rows| ==> b.rows[k].id != op.row.id
  }

  ghost predicate Run(b: Book, ops: seq<Op>, b': Book)
    decreases |ops|
  {
    if ops == [] then b' == b else Legal(b, ops[0]) && Run(Step(b, ops[0]), ops[1..], b')
  }

  lemma {:induction false} ContentsKeys(rows: seq<MemRow>, id: string)
    ensures id in Contents(rows) <==> exists k :: 0 <= k < |rows| && rows[k].id == id
    decreases |rows|
  {
    if rows != [] {
      ContentsKeys(rows[1..], id);
      if k :| 0 <= k < |rows| && rows[k].id == id {
        if k > 0 { assert rows[1..][k - 1].id == id; }
      }
      if j :| 0 <= j < |rows[1..]| && rows[1..][j].id == id { assert rows[j + 1].id == id; }
    }
  }

  lemma {:induction false} ContentsUpdate(rows: seq<MemRow>, k: nat, row: MemRow)
    requires k < |rows| && DistinctRows(rows) && row.id == rows[k].id
    ensures Contents(rows[k := row]) == Contents(rows)[row.id := row.content] && DistinctRows(rows[k := row])
    decreases |rows|
  {
    if k == 0 {
      assert rows[0 := row][1..] == rows[1..];
    } else {
      assert rows[k := row][1..] == rows[1..][k - 1 := row] && rows[k := row][0] == rows[0];
      forall i, j | 0 <= i < j < |rows[1..]|
        ensures rows[1..][i].id != rows[1..][j].id
      {
        assert rows[i + 1].id != rows[j + 1].id;
      }
      ContentsUpdate(rows[1..], k - 1, row);
      assert rows[0].id != row.id;
    }
  }

  lemma {:induction false} PutAndDrop(m: map<string, string>, k: string, v: string, id: string)
    ensures m[k := v] - {id} == if k == id then m - {id} else (m - {id})[k := v]
  {
  }

  lemma {:induction false} ContentsWithout(rows: seq<MemRow>, id: string)
    ensures Contents(Without(rows, id)) == Contents(rows) - {id}
    ensures forall r :: r in Without(rows, id) <==> r in rows && r.id != id
    decreases |rows|
  {
    if rows != [] {
      ContentsWithout(rows[1..], id);
      assert rows == [rows[0]] + rows[1..];
      PutAndDrop(Contents(rows[1..]), rows[0].id, rows[0].content, id);
      if rows[0].id != id {
        assert Without(rows, id)[1..] == Without(rows[1..], id);
      } else {
        assert Without(rows, id) == Without(rows[1..], id);
      }
    }
  }

  lemma {:induction false} WithoutDistinct(rows: seq<MemRow>, id: string)
    requires DistinctRows(rows)
    ensures DistinctRows(Without(rows, id))
    decreases |rows|
  {
    if rows != [] {
      forall i, j | 0 <= i < j < |rows[1..]|
        ensures rows[1..][i].id != rows[1..][j].id
      {
        assert rows[i + 1].id != rows[j + 1].id;
      }
      WithoutDistinct(rows[1..], id);
      ContentsWithout(rows[1..], id);
      var rest := Without(rows[1..], id);
      forall j | 0 <= j < |rest|
        ensures rest[j].id != rows[0].id
      {
        assert rest[j] in rows[1..];
        var k :| 0 <= k < |rows[1..]| && rows[1..][k] == rest[j];
        assert rows[0].id != rows[k + 1].id;
      }
    }
  }

  // ----- The journal tells the contents -----

  /** `b` is what `b0` became: its old events are all there, unchanged, and the
      ones added since replay to the contents. */
  ghost predicate Follows(b0: Book, b: Book) {
    && DistinctRows(b.rows)
    && |b0.events| <= |b.events| && b.events[|b.events| - |b0.events|..] == b0.events
    && Contents(b.rows) == ReplayAll(Contents(b0.rows), b.events[..|b.events| - |b0.events|])
  }

  lemma {:induction false} AddEvent(b0: Book, b: Book, rows: seq<MemRow>, e: MemEvent)
    requires Follows(b0, b) && DistinctRows(rows) && Contents(rows) == Replay(Contents(b.rows), e)
    ensures Follows(b0, Book(rows, [e] + b.events))
  {
    var n := |b.events| - |b0.events|;
    var events := [e] + b.events;
    assert events[n + 1..] == b.events[n..];
    assert events[..n + 1] == [e] + b.events[..n];
    assert ([e] + b.events[..n])[1..] == b.events[..n];
  }

  lemma {:induction false} CreateFollows(b0: Book, b: Book, row: MemRow, eventId: string)
    requires Follows(b0, b) && forall k :: 0 <= k < |b.rows| ==> b.rows[k].id != row.id
    ensures Follows(b0, Created(b, row, eventId))
  {
    var rows := [row] + b.rows;
    assert rows[1..] == b.rows;
    AddEvent(b0, b, rows, MemEvent(eventId, Write, row.id, None, Some(row.content), "operator", row.createdAt));
  }

  lemma {:induction false} PinFollows(b0: Book, b: Book, id: string, pinned: bool)
    requires Follows(b0, b)
    ensures Follows(b0, Step(b, Pin(id, pinned)))
  {
    FindRowBound(b.rows, id);
    if FindRow(b.rows, id).Some? {
      var k := FindRow(b.rows, id).value;
      ContentsUpdate(b.rows, k, b.rows[k].(pinned := pinned));
      ContentAt(b.rows, k);
    }
  }

  lemma {:induction false} ContentAt(rows: seq<MemRow>, k: nat)
    requires k < |rows| && DistinctRows(rows)
    ensures rows[k].id in Contents(rows) && Contents(rows)[rows[k].id] == rows[k].content
  {
    ContentsUpdate(rows, k, rows[k]);
    assert rows[k := rows[k]] == rows;
  }

  lemma {:induction false} RevertFollows(b0: Book, b: Book, evt: MemEvent, newId: string, now: int)
    requires Follows(b0, b)
    ensures Follows(b0, Reverted(b, evt, newId, now))
  {
    match evt.mutation {
      case Write =>
        ContentsWithout(b.rows, evt.target);
        WithoutDistinct(b.rows, evt.target);
        AddEvent(b0, b, Without(b.rows, evt.target),
            MemEvent(newId, Forget, evt.target, evt.after, None, "operator", now));
      case Update =>
        FindRowBound(b.rows, evt.target);
        if evt.before.Some? && evt.before.value != "" && FindRow(b.rows, evt.target).Some? {
          var k := FindRow(b.rows, evt.target).value;
          ContentAt(b.rows, k);
          ContentsUpdate(b.rows, k, b.rows[k].(content := evt.before.value));
          AddEvent(b0, b, b.rows[k := b.rows[k].(content := evt.before.value)],
                   MemEvent(newId, Update, evt.target, evt.after, evt.before, "operator", now));
        }
      case Forget =>
    }
  }

  lemma {:induction false} StepFollows(b0: Book, b: Book, op: Op)
    requires Follows(b0, b) && Legal(b, op)
    ensures Follows(b0, Step(b, op))
  {
    match op {
      case Create(row, eventId) => CreateFollows(b0, b, row, eventId);
      case Pin(id, pinned) => PinFollows(b0, b, id, pinned);
      case Revert(target, newId, now) =>
        if FindEvent(b.events, target).Some? { RevertFollows(b0, b, FindEvent(b.events, target).value, newId, now); }
    }
  }

  lemma {:induction false} RunFollows(b0: Book, b: Book, ops: seq<Op>, b': Book)
    requires Follows(b0, b) && Run(b, ops, b')
    ensures Follows(b0, b')
    decreases |ops|
  {
    if ops != [] {
      StepFollows(b0, b, ops[0]);
      RunFollows(b0, Step(b, ops[0]), ops[1..], b');
    }
  }

  /** Whatever is created, pinned, unpinned and reverted, the contents are the
      first ones with the events added since replayed, and no event is changed. */
  lemma {:induction false} JournalReplays(b: Book, ops: seq<Op>, b': Book)
    requires DistinctRows(b.rows) && Run(b, ops, b')
    ensures Follows(b, b')
  {
    assert b.events[|b.events| - |b.events|..] == b.events && b.events[..0] == [];
    RunFollows(b, b, ops, b');
  }

  /** What an operation keeps of a book whose memories have distinct ids. */
  ghost predicate Keeps(b: Book, op: Op, b': Book) {
    DistinctRows(b.rows) && Legal(b, op) ==> Follows(b, b')
  }

  lemma {:induction false} StepKeeps(b: Book, op: Op)
    ensures Keeps(b, op, Step(b, op)) && Keeps(b, op, b)
  {
    assert b.events[|b.events| - |b.events|..] == b.events && b.events[..0] == [];
    if DistinctRows(b.rows) && Legal(b, op) { StepFollows(b, b, op); }
  }

  // ----- Undoing -----

  lemma {:induction false} WithoutNew(rows: seq<MemRow>, id: string)
    requires forall k :: 0 <= k < |rows| ==> rows[k].id != id
    ensures Without(rows, id) == rows
    decreases |rows|
  {
    if rows != [] { WithoutNew(rows[1..], id); }
  }

  /** Reverting the creation just made brings the rows back as they were. */
  lemma {:induction false} CreateThenRevert(b: Book, row: MemRow, eventId: string, newId: string, now: int)
    requires Legal(b, Create(row, eventId))
    ensures Step(Created(b, row, eventId), Revert(eventId, newId, now)).rows == b.rows
  {
    var b1 := Created(b, row, eventId);
    assert b1.rows[1..] == b.rows;
    WithoutNew(b.rows, row.id);
  }

  /** The text of a memory, if it is there. */
  function TextOf(rows: seq<MemRow>, id: string): Option<string> {
    if id in Contents(rows) then Some(Contents(rows)[id]) else None
  }

  /** The newest event tells the change of its memory's text. */
  predicate Truthful(b: Book, b': Book) {
    b'.events != [] && b'.events[0].before == TextOf(b.rows, b'.events[0].target)
    && b'.events[0].after == TextOf(b'.rows, b'.events[0].target)
  }

  /** Undoing this event changes the book. */
  predicate Undoes(b: Book, evt: MemEvent) {
    evt.mutation == Write
    || (evt.mutation == Update && evt.before.Some? && evt.before.value != "" && evt.target in Contents(b.rows))
  }

  /** The inverse event records the undone event's own texts. It is truthful
      just when the memory still has the text the undone event gave it. */
  lemma {:induction false} InverseIsTruthful(b: Book, evt: MemEvent, newId: string, now: int)
    requires DistinctRows(b.rows)
    ensures var b' := Reverted(b, evt, newId, now);
      if Undoes(b, evt)
      then b'.events != [] && b'.events[1..] == b.events && b'.events[0].target == evt.target
           && (Truthful(b, b') <==> evt.after == TextOf(b.rows, evt.target))
      else b' == b
  {
    ContentsKeys(b.rows, evt.target);
    FindRowBound(b.rows, evt.target);
    if evt.mutation == Write {
      ContentsWithout(b.rows, evt.target);
    } else if Undoes(b, evt) {
      var k := FindRow(b.rows, evt.target).value;
      ContentsUpdate(b.rows, k, b.rows[k].(content := evt.before.value));
    }
  }

  /** A creation undone twice: the second time nothing is there, yet the journal
      says its text was forgotten again. */
  lemma {:induction false} UndoneTwiceLies(row: MemRow, eventId: string, newId: string, newId': string, now: int)
    requires newId != eventId
    ensures var b := Step(Step(Book([], []), Create(row, eventId)), Revert(eventId, newId, now));
            var b' := Step(b, Revert(eventId, newId', now));
      b.rows == [] == b'.rows && b'.events[0].before == Some(row.content) && !Truthful(b, b')
  {
    var b1 := Created(Book([], []), row, eventId);
    assert b1.rows[1..] == [];
    CreateThenRevert(Book([], []), row, eventId, newId, now);
    var b := Step(b1, Revert(eventId, newId, now));
    assert b.events[1..] == b1.events;
    assert FindEvent(b.events, eventId) == Some(b1.events[0]);
  }

  /** When undoing an undo brings the contents back. */
  predicate Restores(b: Book, evt: MemEvent) {
    if evt.mutation == Write then TextOf(b.rows, evt.target) == None
    else if evt.after.Some? && evt.after.value != "" then evt.after == TextOf(b.rows, evt.target)
    else evt.before == TextOf(b.rows, evt.target)
  }

  /** Undoing an undo brings the contents back just when: a creation's memory
      was already gone, since a forgetting cannot be undone; an update's result
      was still the text; or, that result being empty and so the second undo
      idle, the text was already the one the first undo put back. */
  lemma {:induction false} UndoTwice(b: Book, evt: MemEvent, newId: string, newId': string, now: int, now': int)
    requires DistinctRows(b.rows) && Undoes(b, evt)
    ensures var b1 := Reverted(b, evt, newId, now); var b2 := Step(b1, Revert(newId, newId', now'));
      Contents(b2.rows) == Contents(b.rows) <==> Restores(b, evt)
  {
    hide FindRow, Without;
    var b1 := Reverted(b, evt, newId, now);
    InverseIsTruthful(b, evt, newId, now);
    if evt.mutation == Write {
      ContentsWithout(b.rows, evt.target);
      assert evt.target !in Contents(b.rows) ==> Contents(b.rows) - {evt.target} == Contents(b.rows);
    } else {
      UpdateIs(b, evt, newId, now);
      var back := b1.events[0];
      if evt.after.Some? && evt.after.value != "" {
        UpdateIs(b1, back, newId', now');
        assert Contents(Reverted(b1, back, newId', now').rows) == Contents(b.rows)[evt.target := evt.after.value];
        assert evt.after == TextOf(b.rows, evt.target)
          ==> Contents(b.rows)[evt.target := evt.after.value] == Contents(b.rows);
      } else {
        assert evt.before == TextOf(b.rows, evt.target)
          ==> Contents(b.rows)[evt.target := evt.before.value] == Contents(b.rows);
      }
    }
  }

  /** What undoing an update does. */
  lemma {:induction false} UpdateIs(b: Book, evt: MemEvent, newId: string, now: int)
    requires DistinctRows(b.rows) && Undoes(b, evt) && evt.mutation == Update
    ensures var b' := Reverted(b, evt, newId, now);
      && DistinctRows(b'.rows) && Contents(b'.rows) == Contents(b.rows)[evt.target := evt.before.value]
      && b'.events == [MemEvent(newId, Update, evt.target, evt.after, evt.before, "operator", now)] + b.events
  {
    ContentsKeys(b.rows, evt.target);
    FindRowBound(b.rows, evt.target);
    var k := FindRow(b.rows, evt.target).value;
    ContentsUpdate(b.rows, k, b.rows[k].(content := evt.before.value));
  }

  /** A creation undone, though its memory had the created text, and that
      undone in turn: the memory does not come back. */
  lemma {:induction false} ForgettingStays(row: MemRow, eventId: string, newId: string, newId': string, now: int)
    ensures var b := Step(Book([], []), Create(row, eventId)); var evt := b.events[0];
            var b1 := Step(b, Revert(eventId, newId, now)); var b2 := Step(b1, Revert(newId, newId', now));
      && evt.after == TextOf(b.rows, evt.target) && Contents(b.rows) == map[row.id := row.content]
      && b1.rows == [] == b2.rows
  {
    var b := Created(Book([], []), row, eventId);
    assert b.rows[1..] == [];
    CreateThenRevert(Book([], []), row, eventId, newId, now);
  }

  // ----- The store -----

  /** Rows and events of every agent, as the request handlers change them. */
  class MemoryStore {
    var agents: set<string>
    var memories: map<string, seq<MemRow>>
    var journal: map<string, seq<MemEvent>>

    constructor (agents: set<string>)
      ensures this.agents == agents && memories == map[] && journal == map[]
    {
      this.agents, memories, journal := agents, map[], map[];
    }

    function MemoriesFor(agent: string): seq<MemRow>
      reads this
    {
      if agent in memories then memories[agent] else []
    }

    function EventsFor(agent: string): seq<MemEvent>
      reads this
    {
      if agent in journal then journal[agent] else []
    }

    function BookOf(agent: string): Book
      reads this
    {
      Book(MemoriesFor(agent), EventsFor(agent))
    }

    /** The handler answers 404 for an agent that is not there. */
    method Create(agent: string, row: MemRow, eventId: string) returns (found: bool)
      modifies this
      ensures found == (agent in agents) && agents == old(agents)
      ensures BookOf(agent) == if found then Step(old(BookOf(agent)), Op.Create(row, eventId)) else old(BookOf(agent))
      ensures forall other :: other != agent ==> BookOf(other) == old(BookOf(other))
      ensures Keeps(old(BookOf(agent)), Op.Create(row, eventId), BookOf(agent))
    {
      StepKeeps(BookOf(agent), Op.Create(row, eventId));
      found := agent in agents;
      if found {
        memories := memories[agent := [row] + MemoriesFor(agent)];
        journal := journal[agent := [MemEvent(eventId, Write, row.id, None, Some(row.content), "operator",
            row.createdAt)] + EventsFor(agent)];
      }
    }

    method SetPinned(agent: string, id: string, pinned: bool) returns (found: bool)
      modifies this
      ensures found == (agent in agents
              && exists k :: 0 <= k < |old(MemoriesFor(agent))| && old(MemoriesFor(agent))[k].id == id)
      ensures agents == old(agents)
      ensures BookOf(agent) == if found then Step(old(BookOf(agent)), Pin(id, pinned)) else old(BookOf(agent))
      ensures forall other :: other != agent ==> BookOf(other) == old(BookOf(other))
      ensures Keeps(old(BookOf(agent)), Pin(id, pinned), BookOf(agent))
    {
      StepKeeps(BookOf(agent), Pin(id, pinned));
      found := false;
      if agent !in agents {
        return;
      }
      var list := MemoriesFor(agent);
      var idx := FindRow(list, id);
      FindRowBound(list, id);
      if idx.None? {
        return;
      }
      memories := memories[agent := list[idx.value := list[idx.value].(pinned := pinned)]];
      found := true;
    }

    method RevertEvent(agent: string, eventId: string, newId: string, now: int) returns (found: bool)
      modifies this
      ensures found == (agent in agents && FindEvent(old(EventsFor(agent)), eventId).Some?) && agents == old(agents)
      ensures BookOf(agent) == if found then Step(old(BookOf(agent)), Revert(eventId, newId, now))
                               else old(BookOf(agent))
      ensures forall other :: other != agent ==> BookOf(other) == old(BookOf(other))
      ensures Keeps(old(BookOf(agent)), Revert(eventId, newId, now), BookOf(agent))
    {
      StepKeeps(BookOf(agent), Revert(eventId, newId, now));
      found := false;
      if agent !in agents {
        return;
      }
      var events := EventsFor(agent);
      var e := FindEvent(events, eventId);
      if e.None? {
        return;
      }
      found := true;
      var evt := e.value;
      if evt.mutation == Write {
        memories := memories[agent := Without(MemoriesFor(agent), evt.target)];
        journal := journal[agent := [MemEvent(newId, Forget, evt.target, evt.after, None, "operator", now)] + events];
        return;
      }
      if evt.mutation == Update && evt.before.Some? && evt.before.value != "" {
        var list := MemoriesFor(agent);
        var idx := FindRow(list, evt.target);
        FindRowBound(list, evt.target);
        if idx.Some? {
          memories := memories[agent := list[idx.value := list[idx.value].(content := evt.before.value)]];
          journal := journal[agent := [MemEvent(newId, Update, evt.target, evt.after, evt.before, "operator", now)]
              + events];
        }
      }
    }
  }
}
