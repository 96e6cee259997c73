/** What each operation does to an agent's book, row by row and event by event. */
module MemoryEffects {
  import opened Results
  import opened MemoryJournal

  /** Row `k`, the first with the id, becomes `row`; nothing else changes. */
  ghost predicate OneChanges(before: seq<MemRow>, after: seq<MemRow>, id: string, k: nat, row: MemRow) {
    && k < |before| == |after| && before[k].id == id && after[k] == row
    && (forall j :: 0 <= j < k ==> before[j].id != id)
    && (forall j :: 0 <= j < |before| && j != k ==> after[j] == before[j])
  }

  ghost predicate NoRow(rows: seq<MemRow>, id: string) {
    forall k :: 0 <= k < |rows| ==> rows[k].id != id
  }

  ghost predicate Repinned(before: seq<MemRow>, after: seq<MemRow>, id: string, pinned: bool) {
    || (NoRow(before, id) && after == before)
    || (exists k: nat :: k < |before|
          && OneChanges(before, after, id, k, MemRow(id, before[k].kind, before[k].content, before[k].state, pinned,
                                                     before[k].createdAt)))
  }

  ghost predicate Rewritten(before: seq<MemRow>, after: seq<MemRow>, id: string, content: string) {
    exists k: nat :: k < |before|
      && OneChanges(before, after, id, k, MemRow(id, before[k].kind, content, before[k].state, before[k].pinned,
                                                 before[k].createdAt))
  }

  /** The rows of other ids stay, in order. */
  ghost predicate Dropped(before: seq<MemRow>, after: seq<MemRow>, id: string) {
    exists at: seq<nat> :: |at| == |after|
      && (forall j, k :: 0 <= j < k < |at| ==> at[j] < at[k])
      && (forall j :: 0 <= j < |at| ==> at[j] < |before| && after[j] == before[at[j]])
      && (forall i: nat :: i in at <==> i < |before| && before[i].id != id)
  }

  /** The newest event with the id. */
  ghost predicate Finds(events: seq<MemEvent>, id: string, k: nat) {
    k < |events| && events[k].id == id && forall j :: 0 <= j < k ==> events[j].id != id
  }

  /** Undoing an event: a creation drops its memory, an update puts the text
      before it back, and a forgetting, or an update of a memory that is gone or
      that had no text, stands. */
  ghost predicate Undone(b: Book, evt: MemEvent, newId: string, now: int, b': Book) {
    match evt.mutation
    case Write =>
      && Dropped(b.rows, b'.rows, evt.target)
      && b'.events == [MemEvent(newId, Forget, evt.target, evt.after, None, "operator", now)] + b.events
    case Update =>
      if evt.before == None || evt.before == Some("") || NoRow(b.rows, evt.target) then b' == b
      else (&& Rewritten(b.rows, b'.rows, evt.target, evt.before.value)
            && b'.events == [MemEvent(newId, Update, evt.target, evt.after, evt.before, "operator", now)] + b.events)
    case Forget => b' == b
  }

  ghost predicate Does(b: Book, op: Op, b': Book) {
    match op
    case Create(row, eventId) =>
      && |b'.rows| == |b.rows| + 1 && b'.rows[0] == row && b'.rows[1..] == b.rows
      && b'.events
         == [MemEvent(eventId, Write, row.id, None, Some(row.content), "operator", row.createdAt)] + b.events
    case Pin(id, pinned) => b'.events == b.events && Repinned(b.rows, b'.rows, id, pinned)
    case Revert(target, newId, now) =>
      || (b' == b && forall k :: 0 <= k < |b.events| ==> b.events[k].id != target)
      || (exists k: nat :: Finds(b.events, target, k) && Undone(b, b.events[k], newId, now, b'))
  }

  lemma {:induction false} FindRowIsFirst(rows: seq<MemRow>, id: string)
    ensures match FindRow(rows, id)
      case None => NoRow(rows, id)
      case Some(k) => k < |rows| && rows[k].id == id && forall j :: 0 <= j < k ==> rows[j].id != id
  {
    if rows != [] {
      FindRowIsFirst(rows[1..], id);
      assert forall j :: 1 <= j < |rows| ==> rows[j] == rows[1..][j - 1];
    }
  }

  lemma {:induction false} FindEventIsFirst(events: seq<MemEvent>, id: string)
    ensures match FindEvent(events, id)
      case None => forall k :: 0 <= k < |events| ==> events[k].id != id
      case Some(e) => exists k: nat :: Finds(events, id, k) && events[k] == e
    decreases |events|
  {
    if events != [] {
      FindEventIsFirst(events[1..], id);
      assert forall j :: 1 <= j < |events| ==> events[j] == events[1..][j - 1];
      if events[0].id == id {
        assert Finds(events, id, 0);
      } else if FindEvent(events[1..], id).Some? {
        var k: nat :| Finds(events[1..], id, k) && events[1..][k] == FindEvent(events[1..], id).value;
        assert Finds(events, id, k + 1);
      }
    }
  }

  ghost function Others(rows: seq<MemRow>, id: string, lo: nat): seq<nat>
    requires lo <= |rows|
    decreases |rows| - lo
  {
    if lo == |rows| then [] else (if rows[lo].id != id then [lo] else []) + Others(rows, id, lo + 1)
  }

  lemma {:induction false} OthersAre(rows: seq<MemRow>, id: string, lo: nat)
    requires lo <= |rows|
    ensures var at, left := Others(rows, id, lo), Without(rows[lo..], id);
      && |at| == |left| && (forall j, k :: 0 <= j < k < |at| ==> at[j] < at[k])
      && (forall j :: 0 <= j < |at| ==> lo <= at[j] < |rows| && left[j] == rows[at[j]])
      && (forall i: nat :: i in at <==> lo <= i < |rows| && rows[i].id != id)
    decreases |rows| - lo
  {
    if lo < |rows| {
      OthersAre(rows, id, lo + 1);
      assert rows[lo..][1..] == rows[lo + 1..];
    }
  }

  lemma {:induction false} WithoutDrops(rows: seq<MemRow>, id: string)
    ensures Dropped(rows, Without(rows, id), id)
  {
    OthersAre(rows, id, 0);
    assert rows[0..] == rows;
  }

  lemma {:induction false} ChangeOne(rows: seq<MemRow>, id: string, k: nat, row: MemRow)
    requires k < |rows| && rows[k].id == id && forall j :: 0 <= j < k ==> rows[j].id != id
    ensures OneChanges(rows, rows[k := row], id, k, row)
  {
  }

  lemma {:induction false} RevertDoes(b: Book, evt: MemEvent, newId: string, now: int)
    ensures Undone(b, evt, newId, now, Reverted(b, evt, newId, now))
  {
    hide Dropped, OneChanges, FindRow, Without;
    FindRowIsFirst(b.rows, evt.target);
    match evt.mutation
    case Write => WithoutDrops(b.rows, evt.target);
    case Update =>
      var found := FindRow(b.rows, evt.target);
      if found.Some? && evt.before.Some? {
        var k := found.value;
        ChangeOne(b.rows, evt.target, k, b.rows[k].(content := evt.before.value));
      }
    case Forget =>
  }

  /** What every operation does, to any book. */
  lemma {:induction false} EveryOperationDoes(b: Book, op: Op)
    ensures Does(b, op, Step(b, op))
  {
    hide OneChanges, Undone, FindRow, FindEvent;
    match op
    case Create(row, eventId) =>
    case Pin(id, pinned) =>
      FindRowIsFirst(b.rows, id);
      if FindRow(b.rows, id).Some? {
        var k := FindRow(b.rows, id).value;
        ChangeOne(b.rows, id, k, b.rows[k].(pinned := pinned));
      }
    case Revert(target, newId, now) =>
      FindEventIsFirst(b.events, target);
      if FindEvent(b.events, target).Some? { RevertDoes(b, FindEvent(b.events, target).value, newId, now); }
  }
}
