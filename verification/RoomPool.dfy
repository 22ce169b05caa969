// The pool of game rooms in etcd: registration, removal, and claiming a room by
// compare-and-swap, alone and among any number of concurrent workers.
module RoomPool {
  import opened Options

  type RoomId = nat
  datatype Status = Available | InUse
  datatype Entry = Entry(room: RoomId, status: Status)

  /** How a claim transaction fails: not at all, without effect, or only in its reply. */
  datatype Fault = NoFault | NotApplied | ReplyLost

  // ---------------------------------------------------------- one worker on its own

  /** The key space is ordered, one value for each room. */
  ghost predicate Ordered(entries: seq<Entry>) {
    forall i, j :: 0 <= i < j < |entries| ==> entries[i].room < entries[j].room
  }

  /** The first position whose room is not below `room`. */
  function Slot(entries: seq<Entry>, room: RoomId): (k: nat)
    requires Ordered(entries)
    ensures k <= |entries|
    ensures forall i :: 0 <= i < k ==> entries[i].room < room
    ensures forall i :: k <= i < |entries| ==> entries[i].room >= room
  {
    if entries == [] || entries[|entries| - 1].room < room then |entries| else Slot(entries[..|entries| - 1], room)
  }

  /** Whether the entry at its slot is the one for `room`. */
  predicate Holds(entries: seq<Entry>, room: RoomId)
    requires Ordered(entries)
  {
    var k := Slot(entries, room);
    k < |entries| && entries[k].room == room
  }

  function PutEntry(entries: seq<Entry>, e: Entry): (r: seq<Entry>)
    requires Ordered(entries)
    ensures Ordered(r)
  {
    var k := Slot(entries, e.room);
    if Holds(entries, e.room) then entries[k := e] else entries[..k] + [e] + entries[k..]
  }

  function DeleteEntry(entries: seq<Entry>, room: RoomId): (r: seq<Entry>)
    requires Ordered(entries)
    ensures Ordered(r)
  {
    var k := Slot(entries, room);
    if Holds(entries, room) then entries[..k] + entries[k + 1..] else entries
  }

  function StatusOf(entries: seq<Entry>, room: RoomId): Option<Status>
    requires Ordered(entries)
  {
    if Holds(entries, room) then Some(entries[Slot(entries, room)].status) else None
  }

  lemma StatusIsMembership(entries: seq<Entry>, room: RoomId, status: Status)
    requires Ordered(entries)
    ensures StatusOf(entries, room) == Some(status) <==> Entry(room, status) in entries
  {
  }

  lemma PutMembers(entries: seq<Entry>, e: Entry, x: Entry)
    requires Ordered(entries)
    ensures x in PutEntry(entries, e) <==> x == e || (x in entries && x.room != e.room)
  {
    AtItsSlot(entries, e.room, x);
    var k := Slot(entries, e.room);
    if Holds(entries, e.room) {
      SplitMembers(entries, k, x);
      assert PutEntry(entries, e) == entries[..k] + [e] + entries[k + 1..];
    } else {
      assert entries == entries[..k] + entries[k..];
    }
  }

  lemma SplitMembers(entries: seq<Entry>, k: nat, x: Entry)
    requires k < |entries|
    ensures x in entries <==> x in entries[..k] || x == entries[k] || x in entries[k + 1..]
  {
    assert entries == entries[..k] + [entries[k]] + entries[k + 1..];
  }

  /** An entry of the pool is at its room's slot and nowhere else. */
  lemma AtItsSlot(entries: seq<Entry>, room: RoomId, x: Entry)
    requires Ordered(entries)
    ensures x in entries && x.room == room <==> Holds(entries, room) && x == entries[Slot(entries, room)]
    ensures Holds(entries, room) ==>
      var k := Slot(entries, room);
      (x in entries[..k] || x in entries[k + 1..] ==> x.room != room)
  {
    if Holds(entries, room) {
      var k := Slot(entries, room);
      if x in entries[..k] {
        var i :| 0 <= i < k && entries[i] == x;
      } else if x in entries[k + 1..] {
        var i :| k < i < |entries| && entries[i] == x;
      }
      SplitMembers(entries, k, x);
    }
  }

  lemma DeleteMembers(entries: seq<Entry>, room: RoomId, x: Entry)
    requires Ordered(entries)
    ensures x in DeleteEntry(entries, room) <==> x in entries && x.room != room
  {
    AtItsSlot(entries, room, x);
    if Holds(entries, room) {
      SplitMembers(entries, Slot(entries, room), x);
    }
  }

  /** Registering or removing a room changes what is stored for that room and no other. */
  lemma PutAndDeleteAreLocal(entries: seq<Entry>, e: Entry, room: RoomId)
    requires Ordered(entries)
    ensures StatusOf(PutEntry(entries, e), room) == if room == e.room then Some(e.status) else StatusOf(entries, room)
    ensures StatusOf(DeleteEntry(entries, e.room), room) == if room == e.room then None else StatusOf(entries, room)
  {
    var put, deleted := PutEntry(entries, e), DeleteEntry(entries, e.room);
    forall status: Status
      ensures StatusOf(put, room) == Some(status) <==>
                if room == e.room then status == e.status else StatusOf(entries, room) == Some(status)
      ensures StatusOf(deleted, room) == Some(status) <==> room != e.room && StatusOf(entries, room) == Some(status)
    {
      StatusIsMembership(entries, room, status);
      StatusIsMembership(put, room, status);
      StatusIsMembership(deleted, room, status);
      PutMembers(entries, e, Entry(room, status));
      DeleteMembers(entries, e.room, Entry(room, status));
    }
  }

  /** What another process does to the pool: a game room registers, another worker takes a
      room, or a room goes away. */
  datatype Change = Put(entry: Entry) | Drop(room: RoomId)

  function AfterOther(entries: seq<Entry>, change: Change): (r: seq<Entry>)
    requires Ordered(entries)
    ensures Ordered(r)
  {
    if change.Put? then PutEntry(entries, change.entry) else DeleteEntry(entries, change.room)
  }

  function AfterOthers(entries: seq<Entry>, changes: seq<Change>): (r: seq<Entry>)
    requires Ordered(entries)
    ensures Ordered(r)
  {
    if changes == [] then entries
    else AfterOther(AfterOthers(entries, changes[..|changes| - 1]), changes[|changes| - 1])
  }

  /** The scan from position k on: which room it returns and what it leaves behind. */
  function ClaimFrom(entries: seq<Entry>, faults: map<RoomId, Fault>, k: nat): (Option<RoomId>, seq<Entry>)
    requires k <= |entries|
    decreases |entries| - k
  {
    if k == |entries| then (None, entries)
    else
      var e := entries[k];
      var fault := if e.room in faults then faults[e.room] else NoFault;
      if e.status == InUse || fault == NotApplied then ClaimFrom(entries, faults, k + 1)
      else
        var taken := entries[k := Entry(e.room, InUse)];
        if fault == NoFault then (Some(e.room), taken) else ClaimFrom(taken, faults, k + 1)
  }

  /** Rooms free to claim, in key order. */
  function FreeRooms(entries: seq<Entry>): seq<RoomId> {
    if entries == [] then []
    else (if entries[0].status == Available then [entries[0].room] else []) + FreeRooms(entries[1..])
  }

  class RoomStore {
    var entries: seq<Entry>

    ghost predicate Valid()
      reads this
    {
      Ordered(entries)
    }

    constructor ()
      ensures Valid() && entries == []
    {
      entries := [];
    }

    method RegisterRoom(room: RoomId)
      requires Valid()
      modifies this
      ensures Valid() && entries == PutEntry(old(entries), Entry(room, Available))
      ensures StatusOf(entries, room) == Some(Available)
      ensures forall other | other != room :: StatusOf(entries, other) == StatusOf(old(entries), other)
    {
      forall other
        ensures StatusOf(PutEntry(entries, Entry(room, Available)), other)
                == if other == room then Some(Available) else StatusOf(entries, other)
      {
        PutAndDeleteAreLocal(entries, Entry(room, Available), other);
      }
      entries := PutEntry(entries, Entry(room, Available));
    }

    method RemoveRoom(room: RoomId)
      requires Valid()
      modifies this
      ensures Valid() && entries == DeleteEntry(old(entries), room)
      ensures StatusOf(entries, room) == None
      ensures forall other | other != room :: StatusOf(entries, other) == StatusOf(old(entries), other)
    {
      forall other
        ensures StatusOf(DeleteEntry(entries, room), other) == if other == room then None else StatusOf(entries, other)
      {
        PutAndDeleteAreLocal(entries, Entry(room, Available), other);
      }
      entries := DeleteEntry(entries, room);
    }

    /** Other processes change the pool. */
    method LetOthersIn(changes: seq<Change>)
      requires Valid()
      modifies this
      ensures Valid() && entries == AfterOthers(old(entries), changes)
    {
      for k := 0 to |changes|
        invariant Valid() && entries == AfterOthers(old(entries), changes[..k])
      {
        assert changes[..k + 1][..k] == changes[..k];
        entries := AfterOther(entries, changes[k]);
      }
      assert changes[..|changes|] == changes;
    }

    /** `faults` says which claim transactions go wrong, and how. */
    method ClaimAvailableRoom(faults: map<RoomId, Fault>) returns (room: Option<RoomId>)
      requires Valid()
      modifies this
      ensures Valid()
      ensures (room, entries) == ClaimFrom(old(entries), faults, 0)
    {
      for k := 0 to |entries|
        invariant |entries| == |old(entries)| && Ordered(entries)
        invariant ClaimFrom(entries, faults, k) == ClaimFrom(old(entries), faults, 0)
      {
        var e := entries[k];
        if e.status == Available {
          var fault := if e.room in faults then faults[e.room] else NoFault;
          if fault != NotApplied {
            entries := entries[k := Entry(e.room, InUse)];
          }
          if fault == NoFault {
            return Some(e.room);
          }
        }
      }
      return None;
    }
  }

  lemma OrderedPrefix(entries: seq<Entry>, e: Entry)
    requires Ordered(entries + [e])
    ensures Ordered(entries) && forall i :: 0 <= i < |entries| ==> entries[i].room < e.room
  {
    var longer := entries + [e];
    forall i, j | 0 <= i < j < |entries| ensures entries[i].room < entries[j].room {
      assert longer[i] == entries[i] && longer[j] == entries[j];
    }
    forall i | 0 <= i < |entries| ensures entries[i].room < e.room {
      assert longer[i] == entries[i] && longer[|entries|] == e;
    }
  }

  lemma AppendRoom(entries: seq<Entry>, e: Entry)
    requires Ordered(entries + [e])
    ensures Ordered(entries) && PutEntry(entries, e) == entries + [e]
    ensures DeleteEntry(entries + [e], e.room) == entries
  {
    OrderedPrefix(entries, e);
    assert Slot(entries, e.room) == |entries|;
    assert entries[..|entries|] == entries;
    SlotOfLast(entries + [e]);
  }

  lemma SlotOfLast(entries: seq<Entry>)
    requires Ordered(entries) && entries != []
    ensures Slot(entries, entries[|entries| - 1].room) == |entries| - 1
  {
  }

  lemma OthersAppend(entries: seq<Entry>, changes: seq<Change>, c: Change)
    requires Ordered(entries)
    ensures AfterOthers(entries, changes + [c]) == AfterOther(AfterOthers(entries, changes), c)
  {
    assert (changes + [c])[..|changes|] == changes;
  }

  lemma {:induction false} OthersCanEmpty(entries: seq<Entry>, n: nat) returns (changes: seq<Change>)
    requires Ordered(entries) && n <= |entries|
    ensures AfterOthers(entries, changes) == entries[..n]
    decreases |entries| - n
  {
    if n == |entries| {
      changes := [];
    } else {
      changes := OthersCanEmpty(entries, n + 1);
      assert entries[..n + 1] == entries[..n] + [entries[n]];
      AppendRoom(entries[..n], entries[n]);
      OthersAppend(entries, changes, Drop(entries[n].room));
      changes := changes + [Drop(entries[n].room)];
    }
  }

  /** Other processes can turn any pool into any other. */
  lemma {:induction false} OthersCanMakeAnyPool(entries: seq<Entry>, wanted: seq<Entry>) returns (changes: seq<Change>)
    requires Ordered(entries) && Ordered(wanted)
    ensures AfterOthers(entries, changes) == wanted
    decreases |wanted|
  {
    if wanted == [] {
      changes := OthersCanEmpty(entries, 0);
    } else {
      var rest, last := wanted[..|wanted| - 1], wanted[|wanted| - 1];
      assert wanted == rest + [last];
      changes := OthersCanMakeAnyPool(entries, rest);
      AppendRoom(rest, last);
      OthersAppend(entries, changes, Put(last));
      changes := changes + [Put(last)];
    }
  }

  lemma {:induction false} FreeRoomsSplit(entries: seq<Entry>, k: nat)
    requires k <= |entries|
    ensures FreeRooms(entries) == FreeRooms(entries[..k]) + FreeRooms(entries[k..])
  {
    if k > 0 {
      FreeRoomsSplit(entries[1..], k - 1);
      assert entries[..k][1..] == entries[1..][..k - 1];
      assert entries[1..][k - 1..] == entries[k..];
    } else {
      assert entries[..0] == [] && entries[0..] == entries;
    }
  }

  lemma {:induction false} NothingFree(entries: seq<Entry>)
    requires forall i :: 0 <= i < |entries| ==> entries[i].status == InUse
    ensures FreeRooms(entries) == []
  {
    if entries != [] {
      NothingFree(entries[1..]);
    }
  }

  /** Undisturbed, a claim takes exactly the first free room, and fails only when none is. */
  lemma {:induction false} ClaimTakesFirstFree(entries: seq<Entry>, k: nat)
    requires k <= |entries| && forall i :: 0 <= i < k ==> entries[i].status == InUse
    ensures var (room, after) := ClaimFrom(entries, map[], k);
            if FreeRooms(entries) == [] then room == None && after == entries
            else room == Some(FreeRooms(entries)[0]) && FreeRooms(after) == FreeRooms(entries)[1..]
    decreases |entries| - k
  {
    if k == |entries| {
      NothingFree(entries);
    } else if entries[k].status == InUse {
      ClaimTakesFirstFree(entries, k + 1);
    } else {
      var after := entries[k := Entry(entries[k].room, InUse)];
      FreeRoomsSplit(entries, k);
      FreeRoomsSplit(after, k);
      NothingFree(entries[..k]);
      assert after[..k] == entries[..k] && after[k..][1..] == entries[k..][1..];
    }
  }

  ghost predicate Faulted(faults: map<RoomId, Fault>, room: RoomId, fault: Fault) {
    room in faults && faults[room] == fault
  }

  /** A claim of the room, were it tried, would not be answered. */
  ghost predicate Unanswered(faults: map<RoomId, Fault>, room: RoomId) {
    Faulted(faults, room, NotApplied) || Faulted(faults, room, ReplyLost)
  }

  /** The scan ended with `room` before it came to the other room. */
  ghost predicate EndedBefore(room: Option<RoomId>, other: RoomId) {
    room.Some? && room.value <= other
  }

  /** The room that a scan returns was free, and its claim was answered. */
  lemma {:induction false} ReturnedWasFree(entries: seq<Entry>, faults: map<RoomId, Fault>, k: nat) returns (j: nat)
    requires k <= |entries| && ClaimFrom(entries, faults, k).0.Some?
    ensures k <= j < |entries| && entries[j] == Entry(ClaimFrom(entries, faults, k).0.value, Available)
    ensures !Unanswered(faults, entries[j].room)
    decreases |entries| - k
  {
    var e := entries[k];
    if e.status == InUse || Faulted(faults, e.room, NotApplied) {
      j := ReturnedWasFree(entries, faults, k + 1);
    } else if Faulted(faults, e.room, ReplyLost) {
      j := ReturnedWasFree(entries[k := Entry(e.room, InUse)], faults, k + 1);
    } else {
      j := k;
    }
  }

  /** Whatever transactions fail: the room returned is the first free one whose claim is
      answered, and none is returned only if there is none; what is taken is that room and
      the free ones before it of which only the reply was lost. */
  lemma {:induction false} ClaimUnderFaults(entries: seq<Entry>, faults: map<RoomId, Fault>, k: nat, i: nat)
    requires Ordered(entries) && k <= |entries| && i < |entries|
    ensures var (room, after) := ClaimFrom(entries, faults, k);
      var e := entries[i];
      && |after| == |entries|
      && after[i] == (if k <= i && e.status == Available
                         && (room == Some(e.room) || (Faulted(faults, e.room, ReplyLost) && !EndedBefore(room, e.room)))
                      then Entry(e.room, InUse) else e)
      && (room == Some(e.room) ==> e.status == Available && !Unanswered(faults, e.room))
      && (k <= i && e.status == Available && !EndedBefore(room, e.room) ==> Unanswered(faults, e.room))
    decreases |entries| - k
  {
    if k < |entries| {
      var e := entries[k];
      if ClaimFrom(entries, faults, k).0.Some? {
        var j := ReturnedWasFree(entries, faults, k);
        assert entries[i].room == entries[j].room ==> i == j;
      }
      if e.status == InUse || Faulted(faults, e.room, NotApplied) {
        ClaimUnderFaults(entries, faults, k + 1, i);
      } else if Faulted(faults, e.room, ReplyLost) {
        ClaimUnderFaults(entries[k := Entry(e.room, InUse)], faults, k + 1, i);
      }
    }
  }

  // ---------------------------------------------------- many workers, interleaved

  type WorkerId = nat

  datatype Event =
    | Claimed(worker: WorkerId, room: RoomId)
    | ClaimReplyLost(worker: WorkerId, room: RoomId)
    | Registered(room: RoomId)
    | Removed(room: RoomId)

  /** `scans` holds, for each scanning worker, what is left of the listing it read. */
  datatype Pool = Pool(rooms: map<RoomId, Status>, scans: map<WorkerId, seq<Entry>>, history: seq<Event>)

  datatype Action =
    | Register(room: RoomId)
    | Remove(room: RoomId)
    | BeginScan(worker: WorkerId, listing: seq<Entry>)
    | TryNext(worker: WorkerId, fault: Fault)

  ghost predicate Enabled(p: Pool, a: Action) {
    a.TryNext? ==> a.worker in p.scans && p.scans[a.worker] != []
  }

  function Record(p: Pool, e: Event): Pool {
    p.(history := p.history + [e])
  }

  /** The listing of a scan is arbitrary: it may be as stale as it likes. */
  function Next(p: Pool, a: Action): Pool
    requires Enabled(p, a)
  {
    match a
    case Register(room) => Record(p.(rooms := p.rooms[room := Available]), Registered(room))
    case Remove(room) => Record(p.(rooms := p.rooms - {room}), Removed(room))
    case BeginScan(w, listing) => p.(scans := p.scans[w := listing])
    case TryNext(w, fault) =>
      var e := p.scans[w][0];
      var p' := p.(scans := p.scans[w := p.scans[w][1..]]);
      if e.status == InUse || fault == NotApplied || e.room !in p.rooms || p.rooms[e.room] == InUse then p'
      else
        var taken := p'.(rooms := p.rooms[e.room := InUse]);
        if fault == NoFault then Record(taken.(scans := taken.scans - {w}), Claimed(w, e.room))
        else Record(taken, ClaimReplyLost(w, e.room))
  }

  ghost predicate Run(trace: seq<Pool>) {
    && trace != [] && trace[0].history == []
    && forall i | 0 <= i < |trace| - 1 :: Step(trace[i], trace[i + 1])
  }

  ghost predicate Step(p: Pool, p': Pool) {
    exists a :: Enabled(p, a) && p' == Next(p, a)
  }

  predicate Takes(e: Event, room: RoomId) {
    (e.Claimed? || e.ClaimReplyLost?) && e.room == room
  }

  /** After position k the room was registered again, before position `end`. */
  ghost predicate RegisteredBetween(history: seq<Event>, room: RoomId, k: nat, end: nat)
    requires end <= |history|
  {
    exists m :: k < m < end && history[m] == Registered(room)
  }

  ghost predicate ClaimsSeparated(history: seq<Event>) {
    forall room, i: nat, j: nat :: i < j < |history| && Takes(history[i], room) && Takes(history[j], room)
      ==> RegisteredBetween(history, room, i, j)
  }

  /** A room that was taken is free again only because somebody registered it. */
  ghost predicate FreeOnlyByRegistration(p: Pool) {
    forall room, i: nat :: room in p.rooms && p.rooms[room] == Available && i < |p.history| && Takes(p.history[i], room)
      ==> RegisteredBetween(p.history, room, i, |p.history|)
  }

  lemma LaterRegistrationStays(h: seq<Event>, e: Event, room: RoomId, i: nat, end: nat)
    requires end <= |h| && RegisteredBetween(h, room, i, end)
    ensures RegisteredBetween(h + [e], room, i, end) && RegisteredBetween(h + [e], room, i, |h| + 1)
  {
    var m :| i < m < end && h[m] == Registered(room);
    assert (h + [e])[m] == Registered(room);
  }

  lemma TakenAgain(p: Pool, e: Event, room: RoomId, i: nat, j: nat)
    requires ClaimsSeparated(p.history) && FreeOnlyByRegistration(p)
    requires Takes(e, room) ==> room in p.rooms && p.rooms[room] == Available
    requires i < j <= |p.history| && Takes(p.history[i], room)
    requires if j < |p.history| then Takes(p.history[j], room) else Takes(e, room)
    ensures RegisteredBetween(p.history + [e], room, i, j)
  {
    assert RegisteredBetween(p.history, room, i, j);
    LaterRegistrationStays(p.history, e, room, i, j);
  }

  lemma RecordKeepsSeparation(p: Pool, e: Event)
    requires ClaimsSeparated(p.history) && FreeOnlyByRegistration(p)
    requires forall room :: Takes(e, room) ==> room in p.rooms && p.rooms[room] == Available
    ensures ClaimsSeparated(p.history + [e])
  {
    var h' := p.history + [e];
    forall room, i: nat, j: nat | i < j < |h'| && Takes(h'[i], room) && Takes(h'[j], room)
      ensures RegisteredBetween(h', room, i, j)
    {
      TakenAgain(p, e, room, i, j);
    }
  }

  lemma StepKeepsSeparation(p: Pool, a: Action)
    requires Enabled(p, a) && ClaimsSeparated(p.history) && FreeOnlyByRegistration(p)
    ensures ClaimsSeparated(Next(p, a).history) && FreeOnlyByRegistration(Next(p, a))
  {
    var p' := Next(p, a);
    if p'.history != p.history {
      var e := p'.history[|p.history|];
      assert p'.history == p.history + [e];
      RecordKeepsSeparation(p, e);
      forall room, i: nat | room in p'.rooms && p'.rooms[room] == Available && i < |p'.history| && Takes(p'.history[i], room)
        ensures RegisteredBetween(p'.history, room, i, |p'.history|)
      {
        if e == Registered(room) {
          assert p'.history[|p.history|] == Registered(room);
        } else {
          assert RegisteredBetween(p.history, room, i, |p.history|);
          LaterRegistrationStays(p.history, e, room, i, |p.history|);
        }
      }
    }
  }

  /** However many workers scan however stale listings: between two takings of a room
      there is always a registration that made it available again. */
  lemma {:induction false} NoRoomIsHandedOutTwice(trace: seq<Pool>, i: nat)
    requires Run(trace) && i < |trace|
    ensures ClaimsSeparated(trace[i].history) && FreeOnlyByRegistration(trace[i])
  {
    if i > 0 {
      NoRoomIsHandedOutTwice(trace, i - 1);
      assert Step(trace[i - 1], trace[i - 1 + 1]);
      var a :| Enabled(trace[i - 1], a) && trace[i] == Next(trace[i - 1], a);
      StepKeepsSeparation(trace[i - 1], a);
    }
  }

  // ------------------------------------------------------ one claim among the others

  /** The map of the rooms has what the listing of the pool has. */
  ghost predicate Mirrors(p: Pool, entries: seq<Entry>) {
    && Ordered(entries)
    && (forall e <- entries :: e.room in p.rooms && p.rooms[e.room] == e.status)
    && forall room <- p.rooms :: Entry(room, p.rooms[room]) in entries
  }

  ghost predicate Performs(p: Pool, actions: seq<Action>, p': Pool)
    decreases |actions|
  {
    if actions == [] then p' == p else Enabled(p, actions[0]) && Performs(Next(p, actions[0]), actions[1..], p')
  }

  lemma TakenMirrors(p: Pool, entries: seq<Entry>, k: nat, p': Pool)
    requires Mirrors(p, entries) && k < |entries| && p'.rooms == p.rooms[entries[k].room := InUse]
    ensures Mirrors(p', entries[k := Entry(entries[k].room, InUse)])
  {
    var taken := entries[k := Entry(entries[k].room, InUse)];
    forall e <- taken ensures e.room in p'.rooms && p'.rooms[e.room] == e.status {
      var i :| 0 <= i < |taken| && taken[i] == e;
      assert i != k ==> entries[i] in entries;
    }
    forall room <- p'.rooms ensures Entry(room, p'.rooms[room]) in taken {
      if room == entries[k].room {
        assert taken[k] == Entry(room, InUse);
      } else {
        var i :| 0 <= i < |entries| && entries[i] == Entry(room, p.rooms[room]);
        assert taken[i] == entries[i];
      }
    }
  }

  /** The history since p: at most a last claim of `room`, before it only claims whose reply
      was lost. */
  ghost predicate Tells(p: Pool, p': Pool, w: WorkerId, room: Option<RoomId>) {
    && p.history <= p'.history
    && (forall i :: |p.history| <= i < |p'.history| - (if room.Some? then 1 else 0) ==> p'.history[i].ClaimReplyLost?)
    && (room.Some? ==> |p'.history| > |p.history| && p'.history[|p'.history| - 1] == Claimed(w, room.value))
  }

  lemma TellsMore(p: Pool, mid: Pool, p': Pool, w: WorkerId, room: Option<RoomId>)
    requires Tells(p, mid, w, None) && Tells(mid, p', w, room)
    ensures Tells(p, p', w, room)
  {
    forall i | |p.history| <= i < |p'.history| - (if room.Some? then 1 else 0) ensures p'.history[i].ClaimReplyLost? {
      assert i < |mid.history| ==> p'.history[i] == mid.history[i];
    }
  }

  lemma PerformsFirst(p: Pool, a: Action, actions: seq<Action>, p': Pool)
    requires Enabled(p, a) && Performs(Next(p, a), actions, p')
    ensures Performs(p, [a] + actions, p')
  {
    assert ([a] + actions)[1..] == actions;
  }

  /** One entry of the listing: it is claimed, or the scan goes on. */
  lemma TryIsAStep(p: Pool, w: WorkerId, entries: seq<Entry>, faults: map<RoomId, Fault>, k: nat)
    returns (a: Action, mid: Pool, after: seq<Entry>, claims: bool)
    requires Mirrors(p, entries) && k < |entries| && w in p.scans && p.scans[w] == entries[k..]
    ensures Enabled(p, a) && mid == Next(p, a) && |after| == |entries| && Mirrors(mid, after)
    ensures claims ==> ClaimFrom(entries, faults, k) == (Some(entries[k].room), after)
                       && Tells(p, mid, w, Some(entries[k].room))
    ensures !claims ==> ClaimFrom(entries, faults, k) == ClaimFrom(after, faults, k + 1) && Tells(p, mid, w, None)
                        && w in mid.scans && mid.scans[w] == after[k + 1..]
  {
    var e := entries[k];
    assert e in entries;
    var fault := if e.room in faults then faults[e.room] else NoFault;
    a := TryNext(w, fault);
    mid := Next(p, a);
    claims := e.status == Available && fault == NoFault;
    if e.status == InUse || fault == NotApplied {
      after := entries;
    } else {
      after := entries[k := Entry(e.room, InUse)];
      TakenMirrors(p, entries, k, mid);
    }
    assert entries[k..][1..] == entries[k + 1..] == after[k + 1..];
  }

  lemma {:induction false} ScanIsARun(p: Pool, w: WorkerId, entries: seq<Entry>, faults: map<RoomId, Fault>, k: nat,
                                      result: (Option<RoomId>, seq<Entry>))
    returns (actions: seq<Action>, p': Pool)
    requires Mirrors(p, entries) && k <= |entries| && w in p.scans && p.scans[w] == entries[k..]
    requires result == ClaimFrom(entries, faults, k)
    ensures Performs(p, actions, p') && Mirrors(p', result.1) && Tells(p, p', w, result.0)
    decreases |entries| - k
  {
    if k == |entries| {
      actions, p' := [], p;
    } else {
      var a, mid, after, claims := TryIsAStep(p, w, entries, faults, k);
      if claims {
        actions, p' := [], mid;
      } else {
        actions, p' := ScanIsARun(mid, w, after, faults, k + 1, result);
        TellsMore(p, mid, p', w, result.0);
      }
      PerformsFirst(p, a, actions, p');
      actions := [a] + actions;
    }
  }

  /** A claim as the code makes it, whatever faults it meets, is a run of this machine: it ends
      with the same rooms, and its last event is the claim of the room returned, if any is. */
  lemma ClaimIsARun(p: Pool, w: WorkerId, entries: seq<Entry>, faults: map<RoomId, Fault>)
    returns (actions: seq<Action>, p': Pool)
    requires Mirrors(p, entries)
    ensures Performs(p, actions, p') && Mirrors(p', ClaimFrom(entries, faults, 0).1)
    ensures Tells(p, p', w, ClaimFrom(entries, faults, 0).0)
  {
    var begin := BeginScan(w, entries);
    assert entries[0..] == entries;
    actions, p' := ScanIsARun(Next(p, begin), w, entries, faults, 0, ClaimFrom(entries, faults, 0));
    PerformsFirst(p, begin, actions, p');
    actions := [begin] + actions;
  }
}
