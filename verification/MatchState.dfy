// The state of a match and how events rebuild it: the dictionary merge that commits a
// tick and replays an event, joins and leaves, and the fold of a whole event log.
module MatchState {
  import opened Options
  import opened Arena
  import opened ArenaLaws

  type RoomId = nat

  datatype GameState = GameState(roster: Roster, tick: int)

  const FRESH := GameState(NOBODY, 0)

  /** A record of the events topic. */
  datatype Event = Event(room: RoomId, tick: int, roster: Roster)

  function Max(a: int, b: int): int {
    if a >= b then a else b
  }

  /** The first k players of `from` written over `r`, one dictionary entry at a time. */
  function MergedUpTo(r: Roster, from: Roster, k: nat): Roster
    requires k <= |from.order| && Listed(from)
  {
    if k == 0 then r else Put(MergedUpTo(r, from, k - 1), from.order[k - 1], from.states[from.order[k - 1]])
  }

  function Merged(r: Roster, from: Roster): Roster
    requires Listed(from)
  {
    MergedUpTo(r, from, |from.order|)
  }

  lemma {:induction false} MergedUpToStates(r: Roster, from: Roster, k: nat)
    requires k <= |from.order| && Listed(from)
    ensures var m := MergedUpTo(r, from, k);
      && (forall id :: id in m.states <==> id in r.states || id in from.order[..k])
      && (forall id :: id in m.states ==>
            m.states[id] == if id in from.order[..k] then from.states[id] else r.states[id])
  {
    if k > 0 {
      MergedUpToStates(r, from, k - 1);
      assert from.order[..k] == from.order[..k - 1] + [from.order[k - 1]];
    }
  }

  lemma {:induction false} MergedUpToWellFormed(r: Roster, from: Roster, k: nat)
    requires WellFormed(r) && k <= |from.order| && Listed(from)
    ensures WellFormed(MergedUpTo(r, from, k))
  {
    if k > 0 {
      MergedUpToWellFormed(r, from, k - 1);
      PutWellFormed(MergedUpTo(r, from, k - 1), from.order[k - 1], from.states[from.order[k - 1]]);
    }
  }

  /** The merge takes every player of `from` as it is there and leaves the others alone. */
  lemma MergeOverwrites(r: Roster, from: Roster)
    requires WellFormed(r) && WellFormed(from)
    ensures WellFormed(Merged(r, from))
    ensures Merged(r, from).states == r.states + from.states
  {
    MergedUpToWellFormed(r, from, |from.order|);
    MergedUpToStates(r, from, |from.order|);
    assert from.order[..|from.order|] == from.order;
    assert forall id :: id in from.order <==> id in from.states;
  }

  lemma {:induction false} MergedUpToOrder(r: Roster, from: Roster, k: nat)
    requires WellFormed(r) && k <= |from.order| && Listed(from)
    ensures MergedUpTo(r, from, k).order == ComeIn(r.order, from.order[..k])
  {
    if k > 0 {
      MergedUpToOrder(r, from, k - 1);
      MergedUpToWellFormed(r, from, k - 1);
      assert from.order[..k][..k - 1] == from.order[..k - 1];
    }
  }

  /** The ids that are not in `there`, in order. */
  function Lacking(there: seq<PlayerId>, ids: seq<PlayerId>): seq<PlayerId> {
    if ids == [] then []
    else Lacking(there, ids[..|ids| - 1]) + if ids[|ids| - 1] in there then [] else [ids[|ids| - 1]]
  }

  lemma {:induction false} ComeInIsLacking(there: seq<PlayerId>, ids: seq<PlayerId>)
    requires Distinct(ids)
    ensures ComeIn(there, ids) == there + Lacking(there, ids)
    ensures forall id <- Lacking(there, ids) :: id in ids
  {
    if ids != [] {
      var rest, last := ids[..|ids| - 1], ids[|ids| - 1];
      ComeInIsLacking(there, rest);
      assert last !in rest;
    }
  }

  /** It keeps the order of `r` and lets the players that `r` lacks come in behind, in the
      order of `from`: in short, all in the order in which they are first met. */
  lemma MergeOrder(r: Roster, from: Roster)
    requires WellFormed(r) && WellFormed(from)
    ensures Merged(r, from).order == r.order + Lacking(r.order, from.order)
    ensures forall a, b :: MetBefore(Merged(r, from).order, a, b) <==> MetBefore(r.order + from.order, a, b)
  {
    MergedUpToOrder(r, from, |from.order|);
    assert from.order[..|from.order|] == from.order;
    ComeInOrder(r.order, from.order);
    ComeInIsLacking(r.order, from.order);
  }

  lemma {:induction false} NothingLacking(there: seq<PlayerId>, ids: seq<PlayerId>)
    requires forall id <- ids :: id in there
    ensures Lacking(there, ids) == []
  {
    if ids != [] {
      NothingLacking(there, ids[..|ids| - 1]);
    }
  }

  lemma {:induction false} LackingOfLonger(there: seq<PlayerId>, ids: seq<PlayerId>)
    requires there <= ids && Distinct(ids)
    ensures there + Lacking(there, ids) == ids
    decreases |ids|
  {
    if there == ids {
      NothingLacking(there, ids);
    } else {
      LackingOfLonger(there, ids[..|ids| - 1]);
      assert ids[|ids| - 1] !in there;
    }
  }

  /** Of two dictionaries one of which begins like the other, the merge has the longer order. */
  lemma MergeOfPrefixes(r: Roster, from: Roster)
    requires WellFormed(r) && WellFormed(from) && (r.order <= from.order || from.order <= r.order)
    ensures Merged(r, from).order == if r.order <= from.order then from.order else r.order
  {
    MergeOrder(r, from);
    if r.order <= from.order {
      LackingOfLonger(r.order, from.order);
    } else {
      NothingLacking(r.order, from.order);
    }
  }

  lemma MergeKeepsSound(r: Roster, from: Roster)
    requires WellFormed(r) && WellFormed(from) && AllSound(r) && AllSound(from)
    ensures WellFormed(Merged(r, from)) && AllSound(Merged(r, from))
  {
    MergeOverwrites(r, from);
  }

  function ApplyEvent(s: GameState, e: Event): GameState
    requires Listed(e.roster)
  {
    GameState(Merged(s.roster, e.roster), Max(s.tick, e.tick))
  }

  ghost predicate Proper(log: seq<Event>) {
    forall i :: 0 <= i < |log| ==> WellFormed(log[i].roster)
  }

  function Fold(log: seq<Event>): GameState
    requires Proper(log)
  {
    if log == [] then FRESH else ApplyEvent(Fold(log[..|log| - 1]), log[|log| - 1])
  }

  /** The newest event has every player and the highest tick, and ticks start at 0. */
  ghost predicate LastCovers(log: seq<Event>)
    requires log != []
  {
    var last := log[|log| - 1];
    && last.tick >= 0
    && forall i :: 0 <= i < |log| ==> log[i].tick <= last.tick && log[i].roster.states.Keys <= last.roster.states.Keys
  }

  lemma {:induction false} FoldWellFormed(log: seq<Event>)
    requires Proper(log)
    ensures WellFormed(Fold(log).roster) && Fold(log).tick >= 0
  {
    if log != [] {
      FoldWellFormed(log[..|log| - 1]);
      MergeOverwrites(Fold(log[..|log| - 1]).roster, log[|log| - 1].roster);
    }
  }

  /** The fold misses nothing ... */
  lemma {:induction false} FoldAtLeast(log: seq<Event>, i: nat)
    requires Proper(log) && i < |log|
    ensures log[i].tick <= Fold(log).tick && log[i].roster.states.Keys <= Fold(log).roster.states.Keys
  {
    var rest, last := log[..|log| - 1], log[|log| - 1];
    FoldWellFormed(rest);
    MergeOverwrites(Fold(rest).roster, last.roster);
    if i < |rest| {
      FoldAtLeast(rest, i);
    }
  }

  /** ... and invents nothing. */
  lemma {:induction false} FoldAtMost(log: seq<Event>, ids: set<PlayerId>, tick: nat)
    requires Proper(log)
    requires forall i :: 0 <= i < |log| ==> log[i].tick <= tick && log[i].roster.states.Keys <= ids
    ensures Fold(log).tick <= tick && Fold(log).roster.states.Keys <= ids
  {
    if log != [] {
      var rest, last := log[..|log| - 1], log[|log| - 1];
      FoldAtMost(rest, ids, tick);
      FoldWellFormed(rest);
      MergeOverwrites(Fold(rest).roster, last.roster);
    }
  }

  lemma FoldOfCovered(log: seq<Event>)
    requires Proper(log) && log != [] && LastCovers(log)
    ensures Fold(log).roster.states == log[|log| - 1].roster.states && Fold(log).tick == log[|log| - 1].tick
  {
    var rest, last := log[..|log| - 1], log[|log| - 1];
    FoldWellFormed(rest);
    MergeOverwrites(Fold(rest).roster, last.roster);
    FoldAtMost(rest, last.roster.states.Keys, last.tick);
  }

  /** Folding a log gives exactly the last event's players and tick if and only if the
      last event covers the rest. */
  lemma FoldIsLastEvent(log: seq<Event>)
    requires Proper(log) && log != []
    ensures var last := log[|log| - 1];
      Fold(log).roster.states == last.roster.states && Fold(log).tick == last.tick <==> LastCovers(log)
  {
    var last := log[|log| - 1];
    if LastCovers(log) {
      FoldOfCovered(log);
    } else if Fold(log).roster.states == last.roster.states && Fold(log).tick == last.tick {
      FoldWellFormed(log);
      forall i | 0 <= i < |log|
        ensures log[i].tick <= last.tick && log[i].roster.states.Keys <= last.roster.states.Keys
      {
        FoldAtLeast(log, i);
      }
    }
  }

  /** Each event's dictionary begins like `top`. */
  ghost predicate OrdersWithin(log: seq<Event>, top: seq<PlayerId>) {
    forall i :: 0 <= i < |log| ==> log[i].roster.order <= top
  }

  lemma MergeWithin(r: Roster, from: Roster, top: seq<PlayerId>)
    requires WellFormed(r) && WellFormed(from) && r.order <= top && from.order <= top
    ensures r.order <= Merged(r, from).order <= top && from.order <= Merged(r, from).order
  {
    assert if |r.order| <= |from.order| then r.order <= from.order else from.order <= r.order;
    MergeOfPrefixes(r, from);
  }

  lemma OrdersWithinSnoc(log: seq<Event>, e: Event, order: seq<PlayerId>, longer: seq<PlayerId>)
    requires OrdersWithin(log, order) && order <= longer && e.roster.order <= longer
    ensures OrdersWithin(log + [e], longer)
  {
  }

  /** Then the fold has the longest of them. */
  lemma {:induction false} FoldOrder(log: seq<Event>, top: seq<PlayerId>)
    requires Proper(log) && OrdersWithin(log, top)
    ensures Fold(log).roster.order <= top && OrdersWithin(log, Fold(log).roster.order)
  {
    if log != [] {
      var rest, last := log[..|log| - 1], log[|log| - 1];
      FoldOrder(rest, top);
      FoldWellFormed(rest);
      MergeWithin(Fold(rest).roster, last.roster, top);
      OrdersWithinSnoc(rest, last, Fold(rest).roster.order, Fold(log).roster.order);
      assert rest + [last] == log;
    }
  }

  lemma FoldAppend(log: seq<Event>, e: Event)
    requires Proper(log) && WellFormed(e.roster)
    ensures Proper(log + [e]) && Fold(log + [e]) == ApplyEvent(Fold(log), e)
  {
  }

  /** One match told in order: ticks rise and no player is ever dropped. */
  ghost predicate Growing(log: seq<Event>) {
    && Proper(log)
    && (forall i :: 0 <= i < |log| ==> log[i].tick >= 1)
    && forall i, j :: 0 <= i < j < |log| ==>
         log[i].tick < log[j].tick && log[i].roster.states.Keys <= log[j].roster.states.Keys
  }

  // ------------------------------------------------------------ joins and leaves

  /** The slot kept in Redis for a player who left. */
  datatype Hold = Hold(x: real, y: real, health: int, score: int)

  function HoldOf(p: Player): Hold {
    Hold(p.x, p.y, p.health, p.score)
  }

  function Restored(h: Hold): Player {
    Player(h.x, h.y, h.health, h.score, true)
  }

  datatype Visit = Join(id: PlayerId, hold: Option<Hold>) | Leave(id: PlayerId)

  /** A held slot replaces the player; otherwise one enters, or is marked as back. */
  function Visited(r: Roster, v: Visit): Roster {
    match v
    case Join(id, hold) =>
      if hold.Some? then Put(r, id, Restored(hold.value))
      else Put(r, id, if id in r.states then r.states[id].(connected := true) else NEWCOMER)
    case Leave(id) => if id in r.states then Put(r, id, r.states[id].(connected := false)) else r
  }

  function AfterVisits(r: Roster, visits: seq<Visit>): Roster {
    if visits == [] then r else Visited(AfterVisits(r, visits[..|visits| - 1]), visits[|visits| - 1])
  }

  predicate HoldSound(h: Hold) {
    Sound(Restored(h))
  }

  ghost predicate HoldsSound(visits: seq<Visit>) {
    forall i :: 0 <= i < |visits| && visits[i].Join? && visits[i].hold.Some? ==> HoldSound(visits[i].hold.value)
  }

  lemma VisitKeeps(r: Roster, v: Visit)
    requires WellFormed(r)
    ensures WellFormed(Visited(r, v)) && r.states.Keys <= Visited(r, v).states.Keys
    ensures AllSound(r) && HoldsSound([v]) ==> AllSound(Visited(r, v))
  {
    var p := if v.Join? && v.hold.Some? then Restored(v.hold.value)
             else if v.id in r.states then r.states[v.id].(connected := v.Join?) else NEWCOMER;
    PutWellFormed(r, v.id, p);
    if AllSound(r) && HoldsSound([v]) {
      assert v.Join? && v.hold.Some? ==> HoldSound([v][0].hold.value);
      assert Sound(p);
    }
  }

  lemma {:induction false} VisitsKeep(r: Roster, visits: seq<Visit>)
    requires WellFormed(r)
    ensures WellFormed(AfterVisits(r, visits)) && r.states.Keys <= AfterVisits(r, visits).states.Keys
    ensures AllSound(r) && HoldsSound(visits) ==> AllSound(AfterVisits(r, visits))
  {
    if visits != [] {
      var rest, last := visits[..|visits| - 1], visits[|visits| - 1];
      VisitsKeep(r, rest);
      VisitKeeps(AfterVisits(r, rest), last);
      if HoldsSound(visits) {
        assert HoldsSound(rest);
        assert HoldsSound([last]);
      }
    }
  }

  /** Whoever leaves and comes back to the held slot is as they were when they left,
      whatever happened to the others meanwhile, and nobody else changes. */
  lemma RejoinRestoresSlot(r: Roster, later: Roster, id: PlayerId)
    requires WellFormed(r) && WellFormed(later) && id in r.states
    ensures var slot := HoldOf(r.states[id]);
      && Visited(r, Leave(id)).states == r.states[id := r.states[id].(connected := false)]
      && Visited(later, Join(id, Some(slot))).states == later.states[id := r.states[id].(connected := true)]
  {
  }

  /** Without a held slot a known player is only marked as back, and an unknown one enters
      at the origin with full health. */
  lemma JoinWithoutSlot(r: Roster, id: PlayerId)
    requires WellFormed(r)
    ensures var after := Visited(r, Join(id, None));
      && after.states.Keys == r.states.Keys + {id}
      && after.states[id].connected
      && (forall q <- r.states :: after.states[q].(connected := r.states[q].connected) == r.states[q])
      && (forall q <- r.states :: q != id ==> after.states[q] == r.states[q])
      && (id !in r.states ==> after.states[id] == Player(0.0, 0.0, 100, 0, true))
      && after.order == r.order + if id in r.order then [] else [id]
  {
  }

  // ------------------------------------------------------------------ end of a match

  function Disconnected(r: Roster): Roster {
    r.(states := map id | id in r.states :: r.states[id].(connected := false))
  }

  lemma DisconnectedWellFormed(r: Roster)
    requires WellFormed(r)
    ensures WellFormed(Disconnected(r))
  {
  }

  // ------------------------------------------------------- the dictionary on the wire

  /** One player as JSON; `connected` may be missing. */
  datatype PlayerDict = PlayerDict(x: real, y: real, health: int, score: int, connected: Option<bool>)

  datatype StateDict = StateDict(tick: int, players: seq<(PlayerId, PlayerDict)>)

  function Encoded(p: Player): PlayerDict {
    PlayerDict(p.x, p.y, p.health, p.score, Some(p.connected))
  }

  function Decoded(d: PlayerDict): Player {
    Player(d.x, d.y, d.health, d.score, if d.connected.Some? then d.connected.value else true)
  }

  function ToDict(s: GameState): (d: StateDict)
    requires Listed(s.roster)
    ensures d.tick == s.tick && |d.players| == |s.roster.order|
    ensures forall i :: 0 <= i < |d.players| ==>
      d.players[i] == (s.roster.order[i], Encoded(s.roster.states[s.roster.order[i]]))
  {
    StateDict(s.tick, seq(|s.roster.order|, i requires 0 <= i < |s.roster.order| =>
      (s.roster.order[i], Encoded(s.roster.states[s.roster.order[i]]))))
  }

  function RosterFrom(players: seq<(PlayerId, PlayerDict)>): Roster {
    if players == [] then NOBODY
    else
      var last := players[|players| - 1];
      Put(RosterFrom(players[..|players| - 1]), last.0, Decoded(last.1))
  }

  lemma {:induction false} RosterFromWellFormed(players: seq<(PlayerId, PlayerDict)>)
    ensures WellFormed(RosterFrom(players))
  {
    if players != [] {
      var rest, last := players[..|players| - 1], players[|players| - 1];
      RosterFromWellFormed(rest);
      PutWellFormed(RosterFrom(rest), last.0, Decoded(last.1));
    }
  }

  method FromDict(d: StateDict) returns (s: GameState)
    ensures s == GameState(RosterFrom(d.players), d.tick)
  {
    var roster := NOBODY;
    for k := 0 to |d.players|
      invariant roster == RosterFrom(d.players[..k])
    {
      assert d.players[..k + 1][..k] == d.players[..k];
      roster := Put(roster, d.players[k].0, Decoded(d.players[k].1));
    }
    assert d.players[..|d.players|] == d.players;
    return GameState(roster, d.tick);
  }

  /** The first n players of `r`, and nobody else. */
  ghost predicate FirstOf(r: Roster, n: nat, got: Roster)
    requires WellFormed(r) && n <= |r.order|
  {
    && WellFormed(got) && got.order == r.order[..n]
    && forall i :: 0 <= i < n ==> r.order[i] in got.states && got.states[r.order[i]] == r.states[r.order[i]]
  }

  lemma NextTake<T>(s: seq<T>, n: nat)
    requires n < |s|
    ensures s[..n + 1] == s[..n] + [s[n]]
  {
  }

  lemma NotYet(r: Roster, n: nat, got: Roster, id: PlayerId)
    requires WellFormed(r) && n < |r.order| && FirstOf(r, n, got) && id == r.order[n]
    ensures id !in got.states
  {
  }

  lemma PutNext(r: Roster, n: nat, got: Roster, id: PlayerId)
    requires WellFormed(r) && n < |r.order| && FirstOf(r, n, got) && id == r.order[n]
    ensures FirstOf(r, n + 1, Put(got, id, r.states[id]))
  {
    NotYet(r, n, got, id);
    PutWellFormed(got, id, r.states[id]);
    NextTake(r.order, n);
  }

  lemma FirstOfNone(r: Roster, got: Roster)
    requires WellFormed(r) && got == NOBODY
    ensures FirstOf(r, 0, got)
  {
  }

  lemma DecodeNext(s: GameState, n: nat)
    requires WellFormed(s.roster) && n < |s.roster.order|
    ensures var players, id := ToDict(s).players, s.roster.order[n];
      RosterFrom(players[..n + 1]) == Put(RosterFrom(players[..n]), id, s.roster.states[id])
  {
    var players := ToDict(s).players;
    assert players[..n + 1][..n] == players[..n];
    assert Decoded(players[n].1) == s.roster.states[s.roster.order[n]];
  }

  lemma DecodeOneMore(s: GameState, n: nat, before: Roster, after: Roster)
    requires WellFormed(s.roster) && n < |s.roster.order|
    requires before == RosterFrom(ToDict(s).players[..n]) && FirstOf(s.roster, n, before)
    requires after == RosterFrom(ToDict(s).players[..n + 1])
    ensures FirstOf(s.roster, n + 1, after)
  {
    DecodeNext(s, n);
    PutNext(s.roster, n, before, s.roster.order[n]);
  }

  lemma {:induction false} DecodePrefix(s: GameState, n: nat, decoded: Roster)
    requires WellFormed(s.roster) && n <= |s.roster.order| && decoded == RosterFrom(ToDict(s).players[..n])
    ensures FirstOf(s.roster, n, decoded)
  {
    if n == 0 {
      FirstOfNone(s.roster, decoded);
    } else {
      var before := RosterFrom(ToDict(s).players[..n - 1]);
      DecodePrefix(s, n - 1, before);
      DecodeOneMore(s, n - 1, before, decoded);
    }
  }

  /** A player on the wire becomes the player with these values, connected unless it says
      otherwise. */
  lemma PlayerOnTheWire(id: PlayerId, d: PlayerDict)
    ensures var p := RosterFrom([(id, d)]);
      && p.order == [id] && p.states.Keys == {id}
      && p.states[id].x == d.x && p.states[id].y == d.y
      && p.states[id].health == d.health && p.states[id].score == d.score
      && (p.states[id].connected <==> d.connected != Some(false))
  {
    assert [(id, d)][..0] == [];
  }

  /** What is written to Redis is read back unchanged, insertion order included. */
  lemma StateRoundTrip(s: GameState)
    requires WellFormed(s.roster)
    ensures GameState(RosterFrom(ToDict(s).players), ToDict(s).tick) == s
  {
    var players := ToDict(s).players;
    DecodePrefix(s, |players|, RosterFrom(players[..|players|]));
    assert players[..|players|] == players;
    SameOrderSameRoster(s.roster, RosterFrom(ToDict(s).players));
  }

  lemma SameOrderSameRoster(r: Roster, got: Roster)
    requires WellFormed(r) && WellFormed(got) && got.order == r.order
    requires forall i :: 0 <= i < |r.order| ==> got.states[r.order[i]] == r.states[r.order[i]]
    ensures got == r
  {
  }
}
