// A whole room: game loops on any number of instances, the events topic, Redis and the
// held slots. Every await is a point where other steps may land; publishes and Redis
// writes may take effect late, repeatedly or never; instances may crash at any point and
// leaders may overlap.
module MatchSystem {
  import opened Options
  import opened Arena
  import opened ArenaLaws
  import opened MatchState

  type LoopId = nat

  datatype Phase =
    | Loading                   // load_state has not finished
    | Idle                      // between ticks
    | Publishing(event: Event)  // awaiting the acknowledgement of this event
    | Saving                    // committed; the Redis write has been issued
    | Over                      // end_match has run
    | Cleared                   // the Redis keys of the finished match are gone

  datatype Loop = Loop(state: GameState, phase: Phase)

  /** `published` holds every event ever sent, `writes` every snapshot ever written to
      Redis and `held` every slot ever kept, whether or not they took effect. */
  datatype System = System(log: seq<Event>, published: set<Event>, redis: Option<GameState>, writes: set<GameState>,
                           held: set<(PlayerId, Hold)>, loops: map<LoopId, Loop>)

  datatype Step =
    | Begin(l: LoopId)                                             // a new loop starts loading
    | LoadRedis(l: LoopId, snapshot: GameState)
    | ColdStart(l: LoopId, seen: seq<Event>)                       // the events it replays, in order
    | Visiting(l: LoopId, visit: Visit)                            // a join or a leave
    | Prepare(l: LoopId, room: RoomId, messages: seq<Message>)     // the tick up to its publish
    | Append(event: Event)                                         // the topic takes an event that was sent
    | Commit(l: LoopId)                                            // the publish is acknowledged
    | Fail(l: LoopId)                                              // the publish is reported failed
    | Saved(l: LoopId)                                             // the Redis call has returned or raised
    | Written(snapshot: GameState)                                 // a Redis write takes effect
    | Expired                                                      // the Redis key runs out
    | End(l: LoopId)
    | Clear(l: LoopId)
    | NextMatch(l: LoopId)
    | Crash(l: LoopId)                                             // or a stop on lost leadership

  function ReplayedOnto(s: GameState, events: seq<Event>): GameState
    requires Proper(events)
  {
    if events == [] then s
    else ApplyEvent(ReplayedOnto(s, events[..|events| - 1]), events[|events| - 1])
  }

  ghost predicate In(s: System, l: LoopId, phase: Phase) {
    l in s.loops && s.loops[l].phase == phase
  }

  ghost predicate Enabled(s: System, e: Step) {
    match e
    case Begin(l) => l !in s.loops
    case LoadRedis(l, snapshot) => In(s, l, Loading) && snapshot in s.writes
    case ColdStart(l, seen) => In(s, l, Loading) && Proper(seen) && forall i :: 0 <= i < |seen| ==> seen[i] in s.log
    case Visiting(l, v) => l in s.loops && (v.Join? && v.hold.Some? ==> (v.id, v.hold.value) in s.held)
    case Prepare(l, _, messages) => In(s, l, Idle) && WellFormed(s.loops[l].state.roster) && Playable(messages)
    case Append(event) => event in s.published
    case Commit(l) =>
      && l in s.loops && s.loops[l].phase.Publishing? && s.loops[l].phase.event in s.log
      && Listed(s.loops[l].phase.event.roster)
    case Fail(l) => l in s.loops && s.loops[l].phase.Publishing?
    case Saved(l) => In(s, l, Saving)
    case Written(snapshot) => snapshot in s.writes
    case Expired => true
    case End(l) => In(s, l, Saving)
    case Clear(l) => In(s, l, Over)
    case NextMatch(l) => In(s, l, Cleared)
    case Crash(l) => l in s.loops
  }

  function At(s: System, l: LoopId, state: GameState, phase: Phase): System {
    s.(loops := s.loops[l := Loop(state, phase)])
  }

  ghost function EventOf(s: System, e: Step): Event
    requires e.Prepare? && Enabled(s, e)
  {
    Event(e.room, s.loops[e.l].state.tick + 1, Ticked(s.loops[e.l].state.roster, e.messages))
  }

  function CommitState(state: GameState, event: Event): GameState
    requires Listed(event.roster)
  {
    GameState(Merged(state.roster, event.roster), state.tick + 1)
  }

  ghost function Next(s: System, e: Step): System
    requires Enabled(s, e)
  {
    match e
    case Begin(l) => At(s, l, FRESH, Loading)
    case LoadRedis(l, snapshot) => At(s, l, snapshot, Idle)
    case ColdStart(l, seen) => At(s, l, ReplayedOnto(s.loops[l].state, seen), Idle)
    case Visiting(l, v) =>
      var r := s.loops[l].state.roster;
      var left := if v.Leave? && v.id in r.states then {(v.id, HoldOf(r.states[v.id]))} else {};
      At(s.(held := s.held + left), l, GameState(Visited(r, v), s.loops[l].state.tick), s.loops[l].phase)
    case Prepare(l, _, _) =>
      At(s.(published := s.published + {EventOf(s, e)}), l, s.loops[l].state, Publishing(EventOf(s, e)))
    case Append(event) => s.(log := s.log + [event])
    case Commit(l) =>
      var committed := CommitState(s.loops[l].state, s.loops[l].phase.event);
      At(s.(writes := s.writes + {committed}), l, committed, Saving)
    case Fail(l) => At(s, l, s.loops[l].state, Idle)
    case Saved(l) => At(s, l, s.loops[l].state, Idle)
    case Written(snapshot) => s.(redis := Some(snapshot))
    case Expired => s.(redis := None)
    case End(l) => At(s, l, s.loops[l].state.(roster := Disconnected(s.loops[l].state.roster)), Over)
    case Clear(l) => At(s.(redis := None), l, s.loops[l].state, Cleared)
    case NextMatch(l) => At(s, l, FRESH, Idle)
    case Crash(l) => s.(loops := s.loops - {l})
  }

  ghost predicate Init(s: System) {
    s == System([], {}, None, {}, {}, map[])
  }

  ghost predicate CanStep(s: System, s': System) {
    exists e :: Enabled(s, e) && s' == Next(s, e)
  }

  ghost predicate Run(trace: seq<System>) {
    trace != [] && Init(trace[0]) && forall i | 0 <= i < |trace| - 1 :: CanStep(trace[i], trace[i + 1])
  }

  ghost predicate Reachable(s: System) {
    exists trace: seq<System> :: Run(trace) && trace[|trace| - 1] == s
  }

  // ------------------------------------------------------------------ invariant

  ghost predicate Good(r: Roster) {
    WellFormed(r) && AllSound(r)
  }

  /** The log has an event of the snapshot's tick, and the snapshot agrees with it on
      every player of that event. */
  ghost predicate BackedAt(log: seq<Event>, snapshot: GameState, k: nat) {
    && k < |log| && log[k].tick == snapshot.tick
    && forall id :: id in log[k].roster.states ==>
         id in snapshot.roster.states && snapshot.roster.states[id] == log[k].roster.states[id]
  }

  ghost predicate Backed(log: seq<Event>, snapshot: GameState) {
    exists k :: BackedAt(log, snapshot, k)
  }

  ghost predicate LoopInv(s: System, loop: Loop) {
    && Good(loop.state.roster)
    && (loop.phase.Publishing? ==> loop.phase.event in s.published && loop.phase.event.tick == loop.state.tick + 1)
  }

  ghost predicate StoresInv(s: System) {
    && (forall i :: 0 <= i < |s.log| ==> s.log[i] in s.published)
    && (forall e <- s.published :: Good(e.roster))
    && (forall w <- s.writes :: Good(w.roster) && Backed(s.log, w))
    && (forall h <- s.held :: HoldSound(h.1))
    && (s.redis.Some? ==> s.redis.value in s.writes)
  }

  ghost predicate Inv(s: System) {
    StoresInv(s) && forall l <- s.loops :: LoopInv(s, s.loops[l])
  }

  lemma BackedGrows(log: seq<Event>, e: Event, snapshot: GameState)
    requires Backed(log, snapshot)
    ensures Backed(log + [e], snapshot)
  {
    var k :| BackedAt(log, snapshot, k);
    assert BackedAt(log + [e], snapshot, k);
  }

  lemma CommitIsBacked(log: seq<Event>, state: GameState, event: Event)
    requires Good(state.roster) && Good(event.roster) && event in log && event.tick == state.tick + 1
    ensures Good(CommitState(state, event).roster) && Backed(log, CommitState(state, event))
  {
    MergeKeepsSound(state.roster, event.roster);
    MergeOverwrites(state.roster, event.roster);
    var k :| 0 <= k < |log| && log[k] == event;
    assert BackedAt(log, CommitState(state, event), k);
  }

  lemma {:induction false} ReplayIsGood(s: GameState, events: seq<Event>)
    requires Good(s.roster) && forall i :: 0 <= i < |events| ==> Good(events[i].roster)
    ensures Proper(events) && Good(ReplayedOnto(s, events).roster)
  {
    if events != [] {
      var rest, last := events[..|events| - 1], events[|events| - 1];
      ReplayIsGood(s, rest);
      MergeKeepsSound(ReplayedOnto(s, rest).roster, last.roster);
    }
  }

  lemma VisitIsGood(r: Roster, v: Visit)
    requires Good(r) && (v.Join? && v.hold.Some? ==> HoldSound(v.hold.value))
    ensures Good(Visited(r, v))
    ensures v.id in r.states ==> HoldSound(HoldOf(r.states[v.id]))
  {
    assert HoldsSound([v]);
    VisitKeeps(r, v);
    if v.id in r.states {
      assert Sound(r.states[v.id]);
    }
  }

  lemma DisconnectedIsGood(r: Roster)
    requires Good(r)
    ensures Good(Disconnected(r))
  {
  }

  lemma LoadKeepsInv(s: System, e: Step)
    requires Inv(s) && Enabled(s, e) && (e.Begin? || e.LoadRedis? || e.ColdStart? || e.NextMatch?)
    ensures Inv(Next(s, e))
  {
    match e
    case ColdStart(l, seen) => {
      assert LoopInv(s, s.loops[l]);
      forall i | 0 <= i < |seen| ensures Good(seen[i].roster) {
        assert seen[i] in s.log;
      }
      ReplayIsGood(s.loops[l].state, seen);
    }
    case _ => {}
  }

  lemma VisitKeepsInv(s: System, e: Step)
    requires Inv(s) && Enabled(s, e) && e.Visiting?
    ensures Inv(Next(s, e))
  {
    assert LoopInv(s, s.loops[e.l]);
    VisitIsGood(s.loops[e.l].state.roster, e.visit);
  }

  lemma TickIsGood(r: Roster, messages: seq<Message>)
    requires Good(r) && Playable(messages)
    ensures Good(Ticked(r, messages))
  {
    TickKeepsSound(r, messages);
  }

  lemma PrepareKeepsInv(s: System, e: Step)
    requires Inv(s) && Enabled(s, e) && e.Prepare?
    ensures Inv(Next(s, e))
  {
    assert LoopInv(s, s.loops[e.l]);
    TickIsGood(s.loops[e.l].state.roster, e.messages);
    var s' := Next(s, e);
    forall l <- s'.loops ensures LoopInv(s', s'.loops[l]) {
      assert l in s.loops && LoopInv(s, s.loops[l]);
    }
  }

  lemma AppendKeepsInv(s: System, e: Step)
    requires Inv(s) && Enabled(s, e) && e.Append?
    ensures Inv(Next(s, e))
  {
    forall w <- s.writes ensures Backed(s.log + [e.event], w) {
      BackedGrows(s.log, e.event, w);
    }
    var s' := Next(s, e);
    forall l <- s'.loops ensures LoopInv(s', s'.loops[l]) {
      assert LoopInv(s, s.loops[l]);
    }
  }

  lemma CommitKeepsInv(s: System, e: Step)
    requires Inv(s) && Enabled(s, e) && e.Commit?
    ensures Inv(Next(s, e))
  {
    var loop := s.loops[e.l];
    assert LoopInv(s, loop);
    CommitIsBacked(s.log, loop.state, loop.phase.event);
    var s' := Next(s, e);
    forall l <- s'.loops ensures LoopInv(s', s'.loops[l]) {
      assert l in s.loops && LoopInv(s, s.loops[l]);
    }
  }

  lemma OtherStepsKeepInv(s: System, e: Step)
    requires Inv(s) && Enabled(s, e)
    requires e.Fail? || e.Saved? || e.Written? || e.Expired? || e.End? || e.Clear? || e.Crash?
    ensures Inv(Next(s, e))
  {
    var s' := Next(s, e);
    if e.End? {
      assert LoopInv(s, s.loops[e.l]);
      DisconnectedIsGood(s.loops[e.l].state.roster);
    }
    forall l <- s'.loops ensures LoopInv(s', s'.loops[l]) {
      assert l in s.loops && LoopInv(s, s.loops[l]);
    }
  }

  lemma StepKeepsInv(s: System, e: Step)
    requires Inv(s) && Enabled(s, e)
    ensures Inv(Next(s, e))
  {
    match e
    case Visiting(_, _) => VisitKeepsInv(s, e);
    case Prepare(_, _, _) => PrepareKeepsInv(s, e);
    case Append(_) => AppendKeepsInv(s, e);
    case Commit(_) => CommitKeepsInv(s, e);
    case Begin(_) => LoadKeepsInv(s, e);
    case LoadRedis(_, _) => LoadKeepsInv(s, e);
    case ColdStart(_, _) => LoadKeepsInv(s, e);
    case NextMatch(_) => LoadKeepsInv(s, e);
    case _ => OtherStepsKeepInv(s, e);
  }

  lemma {:induction false} RunKeepsInv(trace: seq<System>, i: nat)
    requires Run(trace) && i < |trace|
    ensures Inv(trace[i])
  {
    if i > 0 {
      RunKeepsInv(trace, i - 1);
      assert CanStep(trace[i - 1], trace[i - 1 + 1]);
      var e :| Enabled(trace[i - 1], e) && trace[i] == Next(trace[i - 1], e);
      StepKeepsInv(trace[i - 1], e);
    }
  }

  // -------------------------------------------------------------- main theorems

  /** Redis is never ahead of the log: whatever failed, crashed or overlapped, a stored
      snapshot has the tick of a logged event and agrees with it on all its players; so
      does every snapshot still on its way to Redis. */
  lemma RedisNeverAhead(s: System)
    requires Reachable(s)
    ensures s.redis.Some? ==> Backed(s.log, s.redis.value)
    ensures forall w <- s.writes :: Backed(s.log, w)
  {
    var trace: seq<System> :| Run(trace) && trace[|trace| - 1] == s;
    RunKeepsInv(trace, |trace| - 1);
  }

  /** Every player anywhere, in memory, in an event, in Redis or in a held slot, is inside
      the arena, has health 10 to 100 and a score that is a multiple of 10. */
  lemma WorldIsSound(s: System)
    requires Reachable(s)
    ensures forall l <- s.loops :: AllSound(s.loops[l].state.roster)
    ensures forall i :: 0 <= i < |s.log| ==> AllSound(s.log[i].roster)
    ensures s.redis.Some? ==> AllSound(s.redis.value.roster)
    ensures forall h <- s.held :: HoldSound(h.1)
  {
    var trace: seq<System> :| Run(trace) && trace[|trace| - 1] == s;
    RunKeepsInv(trace, |trace| - 1);
    forall l <- s.loops ensures AllSound(s.loops[l].state.roster) {
      assert LoopInv(s, s.loops[l]);
    }
    forall i | 0 <= i < |s.log| ensures AllSound(s.log[i].roster) {
      assert s.log[i] in s.published;
    }
  }

  // ------------------------------------------------------- a method call as a run

  lemma Take(s: System, e: Step) returns (s': System)
    requires Reachable(s) && Enabled(s, e)
    ensures Reachable(s') && s' == Next(s, e)
  {
    s' := Next(s, e);
    var trace: seq<System> :| Run(trace) && trace[|trace| - 1] == s;
    var longer := trace + [s'];
    forall i | 0 <= i < |longer| - 1 ensures CanStep(longer[i], longer[i + 1]) {
      if i < |trace| - 1 {
        assert CanStep(trace[i], trace[i + 1]);
      } else {
        assert longer[i] == s;
      }
    }
    assert longer[|longer| - 1] == s';
  }

  ghost predicate KnownHolds(s: System, visits: seq<Visit>) {
    forall i :: 0 <= i < |visits| && visits[i].Join? && visits[i].hold.Some? ==>
      (visits[i].id, visits[i].hold.value) in s.held
  }

  lemma {:induction false} TakeVisits(s: System, l: LoopId, visits: seq<Visit>) returns (s': System)
    requires Reachable(s) && l in s.loops && KnownHolds(s, visits)
    ensures Reachable(s') && s'.log == s.log && s'.published == s.published && s.held <= s'.held
    ensures s'.loops == s.loops[l := Loop(GameState(AfterVisits(s.loops[l].state.roster, visits), s.loops[l].state.tick),
                                          s.loops[l].phase)]
    decreases |visits|
  {
    if visits == [] {
      s' := s;
    } else {
      var rest, last := visits[..|visits| - 1], visits[|visits| - 1];
      var mid := TakeVisits(s, l, rest);
      s' := Take(mid, Visiting(l, last));
    }
  }

  lemma PublishIsARun(s: System, e: Step, event: Event) returns (s': System)
    requires Reachable(s) && e.Prepare? && Enabled(s, e) && event == EventOf(s, e)
    ensures Reachable(s') && s'.log == s.log + [event] && event in s'.published
    ensures s'.loops == s.loops[e.l := Loop(s.loops[e.l].state, Publishing(event))] && s'.held == s.held
    ensures s'.writes == s.writes
  {
    var s1 := Take(s, e);
    s' := Take(s1, Append(event));
  }

  lemma CommitVisited(s: System, l: LoopId, event: Event, visits: seq<Visit>) returns (s': System)
    requires Reachable(s) && l in s.loops && s.loops[l].phase == Publishing(event) && event in s.log
    requires KnownHolds(s, visits) && Listed(event.roster)
    ensures var state := GameState(AfterVisits(s.loops[l].state.roster, visits), s.loops[l].state.tick);
      && Reachable(s') && s'.loops == s.loops[l := Loop(CommitState(state, event), Saving)]
      && s'.log == s.log && CommitState(state, event) in s'.writes
  {
    var s1 := TakeVisits(s, l, visits);
    s' := Take(s1, Commit(l));
  }

  /** A tick as the game loop runs it, with visits during its publish, is a run of this
      system: the same event logged, the same memory, the same snapshot on its way to Redis. */
  lemma TickIsARun(s: System, l: LoopId, room: RoomId, messages: seq<Message>, visits: seq<Visit>)
    returns (s': System)
    requires Reachable(s) && In(s, l, Idle) && Playable(messages) && KnownHolds(s, visits)
    ensures Enabled(s, Prepare(l, room, messages))
    ensures var event := EventOf(s, Prepare(l, room, messages));
      var committed := CommitState(GameState(AfterVisits(s.loops[l].state.roster, visits), s.loops[l].state.tick), event);
      && Reachable(s') && s'.log == s.log + [event]
      && s'.loops == s.loops[l := Loop(committed, Saving)] && committed in s'.writes
  {
    ReachableIsGood(s, l);
    var event := EventOf(s, Prepare(l, room, messages));
    var s1 := PublishIsARun(s, Prepare(l, room, messages), event);
    assert s1.log[|s.log|] in s1.log;
    s' := CommitVisited(s1, l, event, visits);
  }

  /** After a commit, once its Redis write has landed, the leader may crash: the instance that
      takes over from Redis goes on with exactly the leader's state. */
  lemma TakeoverResumesState(s: System, l: LoopId, m: LoopId) returns (s': System)
    requires Reachable(s) && In(s, l, Saving) && s.loops[l].state in s.writes && m !in s.loops
    ensures Reachable(s') && l !in s'.loops && In(s', m, Idle) && s'.loops[m].state == s.loops[l].state
    ensures s'.redis == Some(s.loops[l].state) && s'.log == s.log
  {
    var state := s.loops[l].state;
    var s1 := Take(s, Written(state));
    var s2 := Take(s1, Crash(l));
    var s3 := Take(s2, Begin(m));
    s' := Take(s3, LoadRedis(m, s3.redis.value));
  }

  lemma ReachableIsGood(s: System, l: LoopId)
    requires Reachable(s) && l in s.loops
    ensures Good(s.loops[l].state.roster)
  {
    var trace: seq<System> :| Run(trace) && trace[|trace| - 1] == s;
    RunKeepsInv(trace, |trace| - 1);
    assert LoopInv(s, s.loops[l]);
  }
}
