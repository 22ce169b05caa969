// The replay service: it buffers the events of every room it sees, saves a checkpoint
// row every `interval` ticks, and after a restart continues from its newest row and an
// arbitrary offset of the topic.
module ReplayService {
  import opened Options
  import opened Arena
  import opened MatchState
  import opened Checkpoints

  datatype Row = Row(events: seq<Event>, snapshot: Roster)

  /** The rows of one room, by tick. */
  type Table = map<int, Row>

  /** The topic tells each room's match in order; rooms may be interleaved. */
  ghost predicate Ordered(topic: seq<Event>, room: RoomId) {
    && (forall i :: 0 <= i < |topic| && topic[i].room == room ==> topic[i].tick >= 1 && WellFormed(topic[i].roster))
    && forall i, j :: 0 <= i < j < |topic| && topic[i].room == room && topic[j].room == room ==>
         topic[i].tick < topic[j].tick && topic[i].roster.states.Keys <= topic[j].roster.states.Keys
  }

  function OfRoom(topic: seq<Event>, room: RoomId): (log: seq<Event>)
    ensures forall i :: 0 <= i < |log| ==> log[i].room == room && log[i] in topic
  {
    if topic == [] then []
    else
      var rest := OfRoom(topic[..|topic| - 1], room);
      if topic[|topic| - 1].room == room then rest + [topic[|topic| - 1]] else rest
  }

  lemma {:induction false} OfRoomHasAll(topic: seq<Event>, room: RoomId, k: nat)
    requires k < |topic| && topic[k].room == room
    ensures topic[k] in OfRoom(topic, room)
  {
    var rest := topic[..|topic| - 1];
    if k < |rest| {
      OfRoomHasAll(rest, room, k);
    }
  }

  lemma {:induction false} OfRoomGrows(topic: seq<Event>, room: RoomId)
    requires Ordered(topic, room)
    ensures Growing(OfRoom(topic, room))
  {
    if topic != [] {
      var rest, last := topic[..|topic| - 1], topic[|topic| - 1];
      OfRoomGrows(rest, room);
      if last.room == room {
        var before := OfRoom(rest, room);
        forall i | 0 <= i < |before|
          ensures before[i].tick < last.tick && before[i].roster.states.Keys <= last.roster.states.Keys
        {
          var k :| 0 <= k < |rest| && rest[k] == before[i];
          assert topic[k].room == room;
        }
      }
    }
  }

  ghost predicate Newest(table: Table, tick: int) {
    tick in table && forall t <- table :: t <= tick
  }

  /** A row worth starting from: events of the room's match, the one of its own tick last
      and none newer, with that event's players as the snapshot. */
  ghost predicate GoodRow(topic: seq<Event>, room: RoomId, row: Row, tick: int) {
    && row.events != [] && row.events[|row.events| - 1].tick == tick
    && row.snapshot == row.events[|row.events| - 1].roster
    && forall i :: 0 <= i < |row.events| ==>
         row.events[i].room == room && row.events[i] in topic && row.events[i].tick <= tick
  }

  ghost predicate GoodTable(topic: seq<Event>, room: RoomId, table: Table) {
    forall t :: Newest(table, t) ==> GoodRow(topic, room, table[t], t)
  }

  /** A buffered event is no newer than the newest one seen since the buffer was loaded,
      or than some saved row. */
  ghost predicate Accounted(table: Table, seen: Option<int>, tick: int) {
    (seen.Some? && tick <= seen.value) || exists t :: t in table && tick <= t
  }

  ghost predicate GoodBuffer(topic: seq<Event>, room: RoomId, table: Table, seen: Option<int>, buffer: seq<Event>) {
    forall i :: 0 <= i < |buffer| ==>
      buffer[i].room == room && buffer[i] in topic && Accounted(table, seen, buffer[i].tick)
  }

  ghost predicate Ahead(topic: seq<Event>, position: nat, room: RoomId, seen: Option<int>) {
    seen.Some? ==> forall j :: position <= j < |topic| && topic[j].room == room ==> topic[j].tick > seen.value
  }

  lemma LoadedIsGood(topic: seq<Event>, room: RoomId, table: Table, tick: int)
    requires GoodTable(topic, room, table) && Newest(table, tick)
    ensures GoodBuffer(topic, room, table, None, table[tick].events)
  {
  }

  lemma AppendKeepsBuffer(topic: seq<Event>, position: nat, room: RoomId, table: Table, seen: Option<int>,
                          buffer: seq<Event>)
    requires position < |topic| && topic[position].room == room
    requires GoodBuffer(topic, room, table, seen, buffer) && Ahead(topic, position, room, seen)
    ensures GoodBuffer(topic, room, table, Some(topic[position].tick), buffer + [topic[position]])
  {
  }

  /** A row saved now is good if it is the newest, and leaves a newer one alone if not. */
  lemma SaveKeepsTable(topic: seq<Event>, room: RoomId, table: Table, buffer: seq<Event>, tick: int)
    requires GoodTable(topic, room, table) && GoodBuffer(topic, room, table, Some(tick), buffer)
    requires buffer != [] && buffer[|buffer| - 1].tick == tick
    ensures GoodTable(topic, room, table[tick := Row(buffer, buffer[|buffer| - 1].roster)])
  {
    var after := table[tick := Row(buffer, buffer[|buffer| - 1].roster)];
    forall t | Newest(after, t) ensures GoodRow(topic, room, after[t], t) {
      if t == tick {
        forall i | 0 <= i < |buffer| ensures buffer[i].tick <= tick {
          assert Accounted(table, Some(tick), buffer[i].tick);
          if exists u :: u in table && buffer[i].tick <= u {
            var u :| u in table && buffer[i].tick <= u;
            assert u in after && u <= tick;
          }
        }
      } else {
        assert Newest(table, t) by {
          forall u <- table ensures u <= t {
            assert u in after;
          }
        }
      }
    }
  }

  lemma SaveKeepsBuffer(topic: seq<Event>, room: RoomId, table: Table, seen: Option<int>, buffer: seq<Event>,
                        tick: int, row: Row)
    requires GoodBuffer(topic, room, table, seen, buffer)
    ensures GoodBuffer(topic, room, table[tick := row], seen, buffer)
  {
    forall i | 0 <= i < |buffer| ensures Accounted(table[tick := row], seen, buffer[i].tick) {
      assert Accounted(table, seen, buffer[i].tick);
      if exists t :: t in table && buffer[i].tick <= t {
        var t :| t in table && buffer[i].tick <= t;
        assert t in table[tick := row];
      }
    }
  }

  lemma GoodRowIsSaved(topic: seq<Event>, room: RoomId, row: Row, tick: int)
    requires GoodRow(topic, room, row, tick)
    ensures SavedFrom(OfRoom(topic, room), row.events, tick)
  {
    forall i | 0 <= i < |row.events| ensures row.events[i] in OfRoom(topic, room) {
      assert row.events[i] in topic;
      var k :| 0 <= k < |topic| && topic[k] == row.events[i];
      OfRoomHasAll(topic, room, k);
    }
  }

  method AnyOf<T(==)>(s: set<T>) returns (x: T)
    requires s != {}
    ensures x in s
  {
    x :| x in s;
  }

  /** The row with the highest tick. */
  method NewestOf(table: Table) returns (newest: int)
    requires table.Keys != {}
    ensures Newest(table, newest)
  {
    var ticks := table.Keys;
    newest := AnyOf(ticks);
    var left := ticks - {newest};
    while left != {}
      invariant newest in table && left <= ticks
      invariant forall t :: t in ticks && t !in left ==> t <= newest
      decreases |left|
    {
      var t := AnyOf(left);
      if t > newest {
        newest := t;
      }
      left := left - {t};
    }
  }

  class ReplayConsumer {
    var matchEvents: map<RoomId, seq<Event>>
    var rows: map<RoomId, Table>               // the replay_checkpoints table
    const interval: nat
    ghost const topic: seq<Event>              // everything the topic ever holds
    ghost var position: nat                    // next offset to be delivered
    ghost var seen: map<RoomId, int>           // newest tick appended since the buffer was loaded

    function TableOf(room: RoomId): Table
      reads this
    {
      if room in rows then rows[room] else map[]
    }

    ghost function SeenOf(room: RoomId): Option<int>
      reads this
    {
      if room in seen then Some(seen[room]) else None
    }

    /** What is kept of a room is good, if the topic tells its match in order. */
    ghost predicate RoomOk(room: RoomId)
      reads this
    {
      Ordered(topic, room) ==>
      && GoodTable(topic, room, TableOf(room))
      && (room in matchEvents ==> GoodBuffer(topic, room, TableOf(room), SeenOf(room), matchEvents[room]))
      && (room !in matchEvents ==> room !in seen)
      && Ahead(topic, position, room, SeenOf(room))
    }

    ghost predicate Valid()
      reads this
    {
      interval > 0 && position <= |topic| && forall room :: RoomOk(room)
    }

    constructor (interval: nat, ghost topic: seq<Event>)
      requires interval > 0
      ensures Valid() && this.topic == topic && position == 0
    {
      this.interval := interval;
      this.topic := topic;
      matchEvents, rows, seen, position := map[], map[], map[], 0;
    }

    /** The newest row of a room; nothing when there is none or the query fails. */
    method LoadLatestCheckpoint(room: RoomId, available: bool) returns (checkpoint: Option<(int, seq<Event>)>)
      requires Valid()
      ensures checkpoint.None? <==> !available || TableOf(room) == map[]
      ensures checkpoint.Some? ==>
        && Newest(TableOf(room), checkpoint.value.0)
        && checkpoint.value.1 == TableOf(room)[checkpoint.value.0].events
        && (Ordered(topic, room) ==> SavedFrom(OfRoom(topic, room), checkpoint.value.1, checkpoint.value.0))
    {
      var table := TableOf(room);
      if !available || table.Keys == {} {
        assert table.Keys == {} ==> table == map[];
        return None;
      }
      var newest := NewestOf(table);
      assert RoomOk(room);
      if Ordered(topic, room) {
        GoodRowIsSaved(topic, room, table[newest], newest);
      }
      return Some((newest, table[newest].events));
    }

    /** Upsert a row; a failure is only logged. */
    method SaveCheckpoint(room: RoomId, tick: int, events: seq<Event>, available: bool)
      requires events != []
      modifies this`rows
      ensures rows == if available then old(rows)[room := old(TableOf(room))[tick := Row(events, events[|events| - 1].roster)]]
                      else old(rows)
    {
      if available {
        rows := rows[room := TableOf(room)[tick := Row(events, events[|events| - 1].roster)]];
      }
    }

    /** One record of the events topic. */
    method ConsumeEvent(event: Event, canLoad: bool, canSave: bool) returns (ghost base: seq<Event>)
      requires Valid() && position < |topic| && event == topic[position]
      modifies this
      ensures Valid() && position == old(position) + 1
      ensures matchEvents == old(matchEvents)[event.room := base + [event]]
      ensures event.room in old(matchEvents) ==> base == old(matchEvents)[event.room]
      ensures event.room !in old(matchEvents) && !canLoad ==> base == []
      ensures event.room !in old(matchEvents) && canLoad ==>
        if old(TableOf(event.room)) == map[] then base == []
        else exists t :: Newest(old(TableOf(event.room)), t) && base == old(TableOf(event.room))[t].events
      ensures rows == if event.tick > 0 && event.tick % interval == 0 && canSave
                      then old(rows)[event.room := old(TableOf(event.room))[event.tick := Row(base + [event], event.roster)]]
                      else old(rows)
    {
      var room := event.room;
      if room !in matchEvents {
        base := Load(room, canLoad);
      } else {
        base := matchEvents[room];
      }
      Append(event);
      if event.tick > 0 && event.tick % interval == 0 {
        SaveCurrent(event, canSave);
      }
    }

    method Load(room: RoomId, canLoad: bool) returns (ghost base: seq<Event>)
      requires Valid() && room !in matchEvents
      modifies this`matchEvents
      ensures Valid() && matchEvents == old(matchEvents)[room := base]
      ensures canLoad && TableOf(room) != map[] ==> exists t :: Newest(TableOf(room), t) && base == TableOf(room)[t].events
      ensures !canLoad || TableOf(room) == map[] ==> base == []
    {
      var checkpoint := LoadLatestCheckpoint(room, canLoad);
      var events := [];
      if checkpoint.Some? {
        assert RoomOk(room);
        if Ordered(topic, room) {
          LoadedIsGood(topic, room, TableOf(room), checkpoint.value.0);
        }
        events := checkpoint.value.1;
      }
      label before:
      matchEvents := matchEvents[room := events];
      base := events;
      forall other ensures RoomOk(other) {
        assert old@before(RoomOk(other));
      }
    }

    method Append(event: Event)
      requires Valid() && position < |topic| && event == topic[position] && event.room in matchEvents
      modifies this`matchEvents, this`position, this`seen
      ensures Valid() && position == old(position) + 1
      ensures matchEvents == old(matchEvents)[event.room := old(matchEvents)[event.room] + [event]]
      ensures event.room in seen && seen[event.room] == event.tick
    {
      ghost var room := event.room;
      assert RoomOk(room);
      if Ordered(topic, room) {
        AppendKeepsBuffer(topic, position, room, TableOf(room), SeenOf(room), matchEvents[room]);
      }
      assert forall other :: other != room ==> RoomOk(other);
      label before:
      matchEvents := matchEvents[event.room := matchEvents[event.room] + [event]];
      position := position + 1;
      seen := seen[room := event.tick];
      forall other ensures RoomOk(other) {
        assert old@before(RoomOk(other));
      }
    }

    method SaveCurrent(event: Event, canSave: bool)
      requires Valid() && event.room in matchEvents && event.room in seen && seen[event.room] == event.tick
      requires matchEvents[event.room] != [] && matchEvents[event.room][|matchEvents[event.room]| - 1] == event
      modifies this`rows
      ensures Valid()
      ensures rows == if canSave
                      then old(rows)[event.room := old(TableOf(event.room))[event.tick := Row(matchEvents[event.room], event.roster)]]
                      else old(rows)
    {
      ghost var room, table := event.room, TableOf(event.room);
      assert RoomOk(room);
      if Ordered(topic, room) {
        SaveKeepsTable(topic, room, table, matchEvents[room], event.tick);
        SaveKeepsBuffer(topic, room, table, SeenOf(room), matchEvents[room], event.tick,
                        Row(matchEvents[room], event.roster));
      }
      label before:
      SaveCheckpoint(event.room, event.tick, matchEvents[event.room], canSave);
      forall other ensures RoomOk(other) {
        assert old@before(RoomOk(other));
      }
    }

    /** A match.end record: the buffer of the room is dropped. */
    method ForgetMatch(room: RoomId)
      requires Valid()
      modifies this`matchEvents, this`seen
      ensures Valid() && matchEvents == old(matchEvents) - {room}
    {
      matchEvents := matchEvents - {room};
      seen := seen - {room};
      forall other ensures RoomOk(other) {
        assert old(RoomOk(other));
      }
    }

    /** The service comes back with empty buffers at whatever offset was committed. */
    method Restart(ghost offset: nat)
      requires Valid() && offset <= |topic|
      modifies this
      ensures Valid() && matchEvents == map[] && rows == old(rows) && position == offset
    {
      matchEvents := map[];
      seen := map[];
      position := offset;
      forall other ensures RoomOk(other) {
        assert old(RoomOk(other));
      }
    }
  }
}
