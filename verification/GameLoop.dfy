// The game loop of one match: the tick copies the players, plays the queued inputs,
// respawns the dead and publishes; only an acknowledged publish is merged into memory,
// shown to spectators and written to Redis. Joins and leaves may land while the publish
// is awaited.
module GameLoop {
  import opened Options
  import opened Arena
  import opened MatchState
  import opened Spectator
  import opened Checkpoints

  /** Position of the first malformed message, or the length of the queue. */
  function FirstBad(queue: seq<Message>): (k: nat)
    ensures k <= |queue| && Playable(queue[..k])
    ensures k < |queue| ==> queue[k].input.Malformed?
  {
    if queue == [] || queue[0].input.Malformed? then 0
    else
      assert forall i {:trigger queue[i]} :: 1 <= i < |queue| ==> queue[i] == queue[1..][i - 1];
      1 + FirstBad(queue[1..])
  }

  lemma {:induction false} FirstBadIs(queue: seq<Message>, k: nat)
    requires k <= |queue| && Playable(queue[..k]) && (k < |queue| ==> queue[k].input.Malformed?)
    ensures FirstBad(queue) == k
  {
  }

  predicate Raises(queue: seq<Message>) {
    FirstBad(queue) < |queue|
  }

  /** What the tick leaves in the queue: nothing, or what follows the first malformed
      message, which makes it raise. */
  function Drained(queue: seq<Message>): seq<Message> {
    var k := FirstBad(queue);
    if k < |queue| then queue[k + 1..] else []
  }

  /** The kills of a tick: of everything it plays before the first malformed message. */
  ghost function KillsOf(r: Roster, queue: seq<Message>): seq<Kill>
    requires WellFormed(r)
  {
    Play(r, queue[..FirstBad(queue)]).kills
  }

  /** A tick plays the queue up to the first malformed message, which makes it raise and is
      taken off with those before it; what follows stays queued. */
  lemma TickStopsAtMalformed(r: Roster, queue: seq<Message>, k: nat)
    requires WellFormed(r) && k <= |queue| && Playable(queue[..k]) && (k < |queue| ==> queue[k].input.Malformed?)
    ensures Raises(queue) <==> k < |queue|
    ensures k < |queue| ==> queue == queue[..k] + [queue[k]] + Drained(queue)
    ensures k == |queue| ==> Drained(queue) == []
    ensures KillsOf(r, queue) == Play(r, queue[..k]).kills
  {
    FirstBadIs(queue, k);
  }

  method MovePlayer(r: Roster, id: PlayerId, c: Input) returns (next: Roster)
    requires c.Command?
    ensures next == Arrived(r, id, c)
  {
    next := r;
    if id !in next.states {
      next := Put(next, id, NEWCOMER);
    }
    next := Put(next, id, MovedBy(next.states[id], c));
  }

  /** One message of the queue, played on the players copied for this tick. */
  method HandleInput(r: Roster, id: PlayerId, c: Input) returns (next: Roster, hit: Option<PlayerId>)
    requires WellFormed(r) && c.Command?
    ensures WellFormed(next) && Outcome(next, hit) == Handle(r, id, c)
    ensures hit.Some? ==> hit.value in next.states
  {
    ArrivedWellFormed(r, id, c);
    HandleWellFormed(r, id, c);
    next := MovePlayer(r, id, c);
    hit := None;
    if c.shoot {
      hit := FindNearestEnemy(next, id);
      if hit.Some? {
        next := Shot(next, id, hit.value);
      }
    }
  }

  lemma PlayOneMore(r: Roster, queue: seq<Message>, k: nat)
    requires WellFormed(r) && k < |queue| && Playable(queue[..k]) && queue[k].input.Command?
    ensures Playable(queue[..k + 1])
    ensures var before := Play(r, queue[..k]);
      Play(r, queue[..k + 1])
      == Record(before, queue[k].sender, Handle(before.roster, queue[k].sender, queue[k].input))
  {
    var longer := queue[..k + 1];
    assert longer[..k] == queue[..k];
    forall i | 0 <= i < |longer| ensures longer[i].input.Command? {
      assert i < k ==> queue[..k][i].input.Command?;
    }
  }

  method RespawnDead(r: Roster) returns (after: Roster)
    requires WellFormed(r)
    ensures after == Respawn(r)
  {
    var states := r.states;
    for k := 0 to |r.order|
      invariant states.Keys == r.states.Keys
      invariant forall j :: 0 <= j < k ==> states[r.order[j]] == Revived(r.states[r.order[j]])
      invariant forall j :: k <= j < |r.order| ==> states[r.order[j]] == r.states[r.order[j]]
    {
      var id := r.order[k];
      if states[id].connected && states[id].health <= 0 {
        states := states[id := states[id].(health := 100, x := 0.0, y := 0.0)];
      }
    }
    forall id | id in r.states ensures states[id] == Revived(r.states[id]) {
      assert id in r.order;
    }
    return r.(states := states);
  }

  /** Every player of `from`, one at a time, updated or added. */
  method MergePlayers(r: Roster, from: Roster) returns (merged: Roster)
    requires Listed(from)
    ensures merged == Merged(r, from)
  {
    merged := r;
    for k := 0 to |from.order|
      invariant merged == MergedUpTo(r, from, k)
    {
      merged := Put(merged, from.order[k], from.states[from.order[k]]);
    }
  }

  /** What lands while a tick awaits: joins and leaves, inputs, and a stop of the loop. */
  datatype Meanwhile = Meanwhile(visits: seq<Visit>, inputs: seq<Message>, stopped: bool)

  function Remaining(r: Roster, over: bool): Roster {
    if over then Disconnected(r) else r
  }

  function ScoreAt(r: Roster, k: nat): int
    requires Listed(r) && k < |r.order|
  {
    r.states[r.order[k]].score
  }

  ghost predicate WinsAt(r: Roster, k: nat)
    requires Listed(r) && k < |r.order|
  {
    && (forall j: nat :: j < |r.order| ==> ScoreAt(r, j) <= ScoreAt(r, k))
    && (forall j: nat :: j < k ==> ScoreAt(r, j) < ScoreAt(r, k))
  }

  ghost predicate IsWinner(r: Roster, id: PlayerId)
    requires Listed(r)
  {
    exists k: nat :: k < |r.order| && r.order[k] == id && WinsAt(r, k)
  }

  method FirstWithHighestScore(r: Roster) returns (winner: Option<PlayerId>)
    requires Listed(r)
    ensures winner.None? <==> r.order == []
    ensures winner.Some? ==> IsWinner(r, winner.value)
  {
    if r.order == [] {
      return None;
    }
    var best := 0;
    for k := 1 to |r.order|
      invariant 0 <= best < k
      invariant forall j: nat :: j < k ==> ScoreAt(r, j) <= ScoreAt(r, best)
      invariant forall j: nat :: j < best ==> ScoreAt(r, j) < ScoreAt(r, best)
    {
      if ScoreAt(r, k) > ScoreAt(r, best) {
        best := k;
      }
    }
    return Some(r.order[best]);
  }

  lemma ReplayedAppend(checkpoint: Option<(int, seq<Event>)>, log: seq<Event>, e: Event)
    ensures Replayed(checkpoint, log + [e])
      == Replayed(checkpoint, log) + if checkpoint.None? || e.tick > checkpoint.value.0 then [e] else []
  {
  }

  lemma ReplayedNext(checkpoint: Option<(int, seq<Event>)>, log: seq<Event>, k: nat)
    requires k < |log|
    ensures Replayed(checkpoint, log[..k + 1])
      == if checkpoint.None? || log[k].tick > checkpoint.value.0 then Replayed(checkpoint, log[..k]) + [log[k]]
         else Replayed(checkpoint, log[..k])
  {
    assert log[..k + 1] == log[..k] + [log[k]];
    ReplayedAppend(checkpoint, log[..k], log[k]);
  }

  /** The event of tick `target`, or the first one if that is later; nothing without any. */
  ghost predicate EventAt(history: seq<Entry<Event>>, target: int, shown: Option<Event>) {
    if history == [] then shown == None
    else
      var k := LookupIndex(history, target);
      shown == Some(history[k].state) && history[k].tick == Max(history[0].tick, target)
  }

  lemma DelayedIsShown(history: seq<Entry<Event>>, maxSize: int, delay: nat, now: int)
    requires Consecutive(history) && delay < maxSize && (history != [] ==> history[|history| - 1].tick == now)
    ensures EventAt(history, now - delay, Lookup(Window(history, maxSize), now - delay))
  {
    if history != [] {
      DelayedEntry(history, maxSize, delay);
    }
  }

  class GameLoop {
    const room: RoomId
    var roster: Roster
    var tick: int
    var inputQueue: seq<Message>
    var lastOffset: int
    var kills: seq<Kill>             // the kill records among the pending telemetry
    var ended: bool
    const matchTicks: int
    const spectators: SpectatorRingBuffer<Event>

    /** What spectators were given is every tick committed here, without a gap. */
    ghost predicate Valid()
      reads this, spectators
    {
      && WellFormed(roster)
      && spectators.Valid() && 0 <= spectators.delayTicks < spectators.maxSize
      && Consecutive(spectators.history)
      && (spectators.history != [] ==> spectators.history[|spectators.history| - 1].tick == tick)
    }

    constructor (room: RoomId, tickRate: nat, durationSeconds: int)
      requires tickRate > 0
      ensures Valid() && fresh(spectators) && roster == NOBODY && tick == 0 && inputQueue == []
      ensures lastOffset == -1 && kills == [] && !ended && spectators.history == []
      ensures this.room == room && matchTicks == tickRate * durationSeconds
      ensures spectators.maxSize == tickRate * 30 && spectators.delayTicks == tickRate * 10
    {
      this.room := room;
      roster, tick, inputQueue, lastOffset, kills, ended := NOBODY, 0, [], -1, [], false;
      matchTicks := tickRate * durationSeconds;
      spectators := new SpectatorRingBuffer(tickRate * 30, tickRate * 10);
    }

    method AddPlayer(id: PlayerId, hold: Option<Hold>)
      requires Valid()
      modifies this`roster
      ensures Valid() && roster == Visited(old(roster), Join(id, hold))
    {
      VisitKeeps(roster, Join(id, hold));
      if hold.Some? {
        roster := Put(roster, id, Restored(hold.value));
        return;
      }
      if id !in roster.states {
        roster := Put(roster, id, NEWCOMER);
      }
      roster := Put(roster, id, roster.states[id].(connected := true));
    }

    method RemovePlayer(id: PlayerId) returns (hold: Option<Hold>)
      requires Valid()
      modifies this`roster
      ensures Valid() && roster == Visited(old(roster), Leave(id))
      ensures hold == if id in old(roster).states then Some(HoldOf(old(roster).states[id])) else None
    {
      VisitKeeps(roster, Leave(id));
      hold := None;
      if id in roster.states {
        roster := Put(roster, id, roster.states[id].(connected := false));
        hold := Some(HoldOf(roster.states[id]));
      }
    }

    /** The tick up to its publish: nothing but the queue and the telemetry changes. */
    method PrepareTick() returns (next: Option<Roster>)
      requires Valid()
      modifies this`inputQueue, this`kills
      ensures Valid() && inputQueue == Drained(old(inputQueue))
      ensures kills == old(kills) + KillsOf(roster, old(inputQueue))
      ensures next.None? <==> Raises(old(inputQueue))
      ensures next.Some? ==> WellFormed(next.value) && next.value == Ticked(roster, old(inputQueue))
    {
      ghost var queue, earlier, k := inputQueue, kills, 0;
      var players := roster;
      assert queue[..0] == [];
      while inputQueue != []
        invariant 0 <= k <= |queue| && inputQueue == queue[k..] && Playable(queue[..k])
        invariant players == Play(roster, queue[..k]).roster && kills == earlier + Play(roster, queue[..k]).kills
        decreases |inputQueue|
      {
        var message := inputQueue[0];
        inputQueue := inputQueue[1..];
        if message.input.Malformed? {
          FirstBadIs(queue, k);
          return None;
        }
        PlayOneMore(roster, queue, k);
        players := PlayMessage(message, players, Play(roster, queue[..k]), earlier);
        k := k + 1;
      }
      FirstBadIs(queue, k);
      assert queue[..k] == queue;
      players := RespawnDead(players);
      return Some(players);
    }

    /** Plays one message and records the kill, if it is one. */
    method PlayMessage(message: Message, players: Roster, ghost before: Melee, ghost earlier: seq<Kill>)
      returns (next: Roster)
      requires WellFormed(players) && players == before.roster && message.input.Command?
      requires kills == earlier + before.kills
      modifies this`kills
      ensures var after := Record(before, message.sender, Handle(before.roster, message.sender, message.input));
        next == after.roster && kills == earlier + after.kills
    {
      var hit;
      next, hit := HandleInput(players, message.sender, message.input);
      if hit.Some? && next.states[hit.value].health <= 0 {
        kills := kills + [Kill(message.sender, hit.value)];
      }
    }

    /** The tick after its acknowledgement. */
    method CommitTick(next: Roster, offset: int) returns (snapshot: GameState)
      requires Valid() && WellFormed(next)
      modifies this`roster, this`tick, this`lastOffset, this`kills, spectators
      ensures Valid() && roster == Merged(old(roster), next) && tick == old(tick) + 1
      ensures lastOffset == offset && kills == []
      ensures spectators.history == old(spectators.history) + [Entry(tick, Event(room, tick, next))]
      ensures snapshot == GameState(roster, tick)
    {
      lastOffset := offset;
      tick := tick + 1;
      MergeOverwrites(roster, next);
      roster := MergePlayers(roster, next);
      kills := [];
      ghost var before := spectators.history;
      spectators.Append(tick, Event(room, tick, next));
      assert forall k :: 0 <= k < |before| ==> spectators.history[k] == before[k];
      snapshot := GameState(roster, tick);
    }

    /** How a committed tick ends: the match is over after its last tick, unless the Redis
        write raised, or unless the loop was stopped before. */
    ghost predicate Closes(committed: Roster, saving: Meanwhile, stopped: bool, redisOk: bool)
      reads this
    {
      var over := redisOk && tick >= matchTicks;
      && ended == (stopped || saving.stopped || over)
      && roster == Remaining(AfterVisits(committed, saving.visits), over && !stopped && !saving.stopped)
    }

    /** One whole tick. `publishing` lands while the publish is awaited and `saving` during the
        Redis writes; `acked` is the offset, or nothing when the publish fails; a failed
        Redis write makes the tick raise, as a malformed input does. */
    method ProcessTick(publishing: Meanwhile, acked: Option<int>, saving: Meanwhile, redisOk: bool)
      returns (snapshot: Option<GameState>)
      requires Valid() && !ended
      modifies this, spectators
      ensures Valid()
      ensures Raises(old(inputQueue)) ==>
        roster == old(roster) && inputQueue == Drained(old(inputQueue)) && !ended
      ensures Raises(old(inputQueue)) || acked.None? ==>
        && snapshot.None? && tick == old(tick) && lastOffset == old(lastOffset)
        && spectators.history == old(spectators.history)
        && kills == old(kills) + KillsOf(old(roster), old(inputQueue))
      ensures !Raises(old(inputQueue)) && acked.None? ==>
        && roster == AfterVisits(old(roster), publishing.visits)
        && inputQueue == publishing.inputs && ended == publishing.stopped
      ensures !Raises(old(inputQueue)) && acked.Some? ==>
        var next := Ticked(old(roster), old(inputQueue));
        var committed := Merged(AfterVisits(old(roster), publishing.visits), next);
        && tick == old(tick) + 1 && lastOffset == acked.value && kills == []
        && snapshot == Some(GameState(committed, tick))
        && spectators.history == old(spectators.history) + [Entry(tick, Event(room, tick, next))]
        && inputQueue == publishing.inputs + saving.inputs
        && Closes(committed, saving, publishing.stopped, redisOk)
    {
      snapshot := None;
      var next := PrepareTick();
      if next.Some? {
        snapshot := PublishTick(next.value, publishing, acked, saving, redisOk);
      }
    }

    /** The publish of a prepared tick and what follows it. */
    method PublishTick(next: Roster, publishing: Meanwhile, acked: Option<int>, saving: Meanwhile, redisOk: bool)
      returns (snapshot: Option<GameState>)
      requires Valid() && !ended && WellFormed(next) && inputQueue == []
      modifies this, spectators
      ensures Valid()
      ensures acked.None? ==>
        && snapshot.None? && tick == old(tick) && lastOffset == old(lastOffset)
        && spectators.history == old(spectators.history) && kills == old(kills)
        && roster == AfterVisits(old(roster), publishing.visits)
        && inputQueue == publishing.inputs && ended == publishing.stopped
      ensures acked.Some? ==>
        var committed := Merged(AfterVisits(old(roster), publishing.visits), next);
        && tick == old(tick) + 1 && lastOffset == acked.value && kills == []
        && snapshot == Some(GameState(committed, tick))
        && spectators.history == old(spectators.history) + [Entry(tick, Event(room, tick, next))]
        && inputQueue == publishing.inputs + saving.inputs
        && Closes(committed, saving, publishing.stopped, redisOk)
    {
      Interleave(publishing);
      if acked.Some? {
        snapshot := FinishTick(next, acked.value, saving, redisOk);
      } else {
        snapshot := None;
      }
    }

    /** What follows an acknowledged publish. */
    method FinishTick(next: Roster, offset: int, saving: Meanwhile, redisOk: bool)
      returns (snapshot: Option<GameState>)
      requires Valid() && WellFormed(next)
      modifies this, spectators
      ensures Valid()
      ensures var committed := Merged(old(roster), next);
        && tick == old(tick) + 1 && lastOffset == offset && kills == []
        && snapshot == Some(GameState(committed, tick))
        && spectators.history == old(spectators.history) + [Entry(tick, Event(room, tick, next))]
        && inputQueue == old(inputQueue) + saving.inputs
        && Closes(committed, saving, old(ended), redisOk)
    {
      var committed := CommitTick(next, offset);
      snapshot := Some(committed);
      Interleave(saving);
      if redisOk && tick >= matchTicks {
        var _ := EndMatch();
      }
    }

    /** What others do to this loop while it waits. */
    method Interleave(m: Meanwhile)
      requires Valid()
      modifies this`roster, this`inputQueue, this`ended
      ensures Valid() && roster == AfterVisits(old(roster), m.visits)
      ensures inputQueue == old(inputQueue) + m.inputs && ended == (old(ended) || m.stopped)
    {
      for k := 0 to |m.visits|
        invariant Valid() && roster == AfterVisits(old(roster), m.visits[..k])
        invariant inputQueue == old(inputQueue) && ended == old(ended)
      {
        assert m.visits[..k + 1][..k] == m.visits[..k];
        match m.visits[k] {
          case Join(id, hold) => AddPlayer(id, hold);
          case Leave(id) => var _ := RemovePlayer(id);
        }
      }
      assert m.visits[..|m.visits|] == m.visits;
      inputQueue := inputQueue + m.inputs;
      ended := ended || m.stopped;
    }

    /** Everyone is disconnected; the winner is the first player with the highest score.
        A match that is over already, or stopped, is left as it is. */
    method EndMatch() returns (winner: Option<PlayerId>)
      requires Valid()
      modifies this`roster, this`ended
      ensures Valid() && ended
      ensures old(ended) ==> roster == old(roster) && winner.None?
      ensures roster == Remaining(old(roster), !old(ended))
      ensures !old(ended) ==>
        && roster.order == old(roster.order) && roster.states.Keys == old(roster.states.Keys)
        && (forall id <- roster.states :: roster.states[id] == old(roster.states)[id].(connected := false))
        && (winner.None? <==> roster.order == [])
        && (winner.Some? ==> IsWinner(roster, winner.value))
    {
      winner := None;
      if ended {
        return;
      }
      ended := true;
      roster := Disconnected(roster);
      DisconnectedWellFormed(old(roster));
      winner := FirstWithHighestScore(roster);
    }

    /** What spectators are sent after a commit: the tick `delayTicks` ago, or the first one. */
    method ShowSpectators() returns (shown: Option<Event>)
      requires Valid()
      ensures EventAt(spectators.history, tick - spectators.delayTicks, shown)
    {
      ghost var history := spectators.history;
      DelayedIsShown(history, spectators.maxSize, spectators.delayTicks, tick);
      shown := spectators.GetDelayedState(tick);
      assert spectators.history == history;
    }

    // --------------------------------------------------------------- state loading

    /** Memory is what these events rebuild. */
    ghost predicate Rebuilt(events: seq<Event>)
      reads this, spectators
    {
      Valid() && spectators.history == [] && Proper(events) && GameState(roster, tick) == Fold(events)
    }

    method Replay(event: Event, ghost before: seq<Event>)
      requires Rebuilt(before) && WellFormed(event.roster)
      modifies this`roster, this`tick
      ensures Rebuilt(before + [event])
    {
      FoldAppend(before, event);
      MergeOverwrites(roster, event.roster);
      roster := MergePlayers(roster, event.roster);
      tick := Max(tick, event.tick);
    }

    method ApplyCheckpoint(saved: seq<Event>)
      requires Rebuilt([]) && Proper(saved)
      modifies this`roster, this`tick
      ensures Rebuilt(saved)
    {
      assert saved[..0] == [];
      for k := 0 to |saved|
        invariant Rebuilt(saved[..k])
      {
        Replay(saved[k], saved[..k]);
        assert saved[..k + 1] == saved[..k] + [saved[k]];
      }
      assert saved[..|saved|] == saved;
    }

    /** One record of the log: skipped when the checkpoint already covers its tick. */
    method ReplayIfNewer(checkpoint: Option<(int, seq<Event>)>, log: seq<Event>, k: nat)
      requires k < |log| && Rebuilt(Replayed(checkpoint, log[..k])) && WellFormed(log[k].roster)
      modifies this`roster, this`tick
      ensures Rebuilt(Replayed(checkpoint, log[..k + 1]))
    {
      ghost var before, after := Replayed(checkpoint, log[..k]), Replayed(checkpoint, log[..k + 1]);
      ReplayedNext(checkpoint, log, k);
      if checkpoint.None? || log[k].tick > checkpoint.value.0 {
        assert after == before + [log[k]];
        Replay(log[k], before);
      } else {
        assert after == before;
      }
    }

    /** Replays the checkpoint, then every event of the log, or only the newer ones. */
    method ColdStartReplay(checkpoint: Option<(int, seq<Event>)>, log: seq<Event>)
      requires Rebuilt([]) && Proper(log) && (checkpoint.Some? ==> Proper(checkpoint.value.1))
      modifies this`roster, this`tick, this`lastOffset
      ensures Rebuilt(Replayed(checkpoint, log))
      ensures lastOffset == if log == [] then old(lastOffset) else |log| - 1
    {
      if checkpoint.Some? {
        ApplyCheckpoint(checkpoint.value.1);
      }
      assert Replayed(checkpoint, []) == if checkpoint.Some? then checkpoint.value.1 else [];
      ApplyLog(checkpoint, log);
      if log != [] {
        lastOffset := |log| - 1;
      }
    }

    method ApplyLog(checkpoint: Option<(int, seq<Event>)>, log: seq<Event>)
      requires Rebuilt(Replayed(checkpoint, [])) && Proper(log)
      modifies this`roster, this`tick
      ensures Rebuilt(Replayed(checkpoint, log))
    {
      assert log[..0] == [];
      for k := 0 to |log|
        invariant Rebuilt(Replayed(checkpoint, log[..k]))
      {
        ReplayIfNewer(checkpoint, log, k);
      }
      assert log[..|log|] == log;
    }

    /** Redis if it has both the state and the offset, otherwise a cold start. */
    method LoadState(state: Option<StateDict>, offset: Option<int>,
                     checkpoint: Option<(int, seq<Event>)>, log: seq<Event>)
      requires Rebuilt([]) && Proper(log) && (checkpoint.Some? ==> Proper(checkpoint.value.1))
      modifies this`roster, this`tick, this`lastOffset
      ensures Valid()
      ensures if state.Some? && offset.Some?
              then GameState(roster, tick) == GameState(RosterFrom(state.value.players), state.value.tick)
              else Rebuilt(Replayed(checkpoint, log))
      ensures lastOffset == if state.Some? && offset.Some? then offset.value
                            else if log == [] then old(lastOffset) else |log| - 1
    {
      if state.Some? && offset.Some? {
        RosterFromWellFormed(state.value.players);
        var loaded := FromDict(state.value);
        roster, tick, lastOffset := loaded.roster, loaded.tick, offset.value;
      } else {
        ColdStartReplay(checkpoint, log);
      }
    }
  }
}
