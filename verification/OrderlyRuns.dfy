// Runs of a single match with one leader at a time, definite publish outcomes and
// takeovers from an up-to-date Redis snapshot or from the log: the log then tells the
// match in order, and replaying it rebuilds the leader.
module OrderlyRuns {
  import opened Options
  import opened Arena
  import opened ArenaLaws
  import opened MatchState
  import opened Checkpoints
  import opened MatchSystem

  /** No overlapping leaders, no stale takeover, no publish that lands although it failed
      or lands twice, and no second match. */
  ghost predicate Orderly(s: System, e: Step) {
    match e
    case Begin(_) => s.loops == map[]
    case LoadRedis(_, snapshot) => s.log != [] && snapshot.tick == LastTick(s.log)
    case ColdStart(_, seen) => exists checkpoint :: ReplaysFrom(s.log, checkpoint, seen)
    case Append(event) =>
      LastTick(s.log) < event.tick && exists l :: l in s.loops && s.loops[l].phase == Publishing(event)
    case Fail(l) => l in s.loops && s.loops[l].phase.Publishing? && LastTick(s.log) < s.loops[l].phase.event.tick
    case NextMatch(_) => false
    case _ => true
  }

  ghost predicate ReplaysFrom(log: seq<Event>, checkpoint: Option<(int, seq<Event>)>, seen: seq<Event>) {
    && (checkpoint.Some? ==> SavedFrom(log, checkpoint.value.1, checkpoint.value.0))
    && seen == Replayed(checkpoint, log)
  }

  function LastTick(log: seq<Event>): int {
    if log == [] then 0 else log[|log| - 1].tick
  }

  function LastPlayers(log: seq<Event>): set<PlayerId> {
    if log == [] then {} else log[|log| - 1].roster.states.Keys
  }

  ghost predicate Current(log: seq<Event>, s: GameState) {
    s.tick == LastTick(log) && LastPlayers(log) <= s.roster.states.Keys
  }

  /** Where memory stands relative to the log. */
  ghost predicate Tracks(log: seq<Event>, loop: Loop) {
    match loop.phase
    case Loading => loop.state.tick == 0
    case Publishing(event) =>
      if log != [] && log[|log| - 1] == event then true
      else Current(log, loop.state) && LastPlayers(log) <= event.roster.states.Keys
    case Over => true
    case Cleared => true
    case _ => Current(log, loop.state)
  }

  ghost predicate OrderlyInv(s: System) {
    && Inv(s) && Growing(s.log)
    && (forall l, m :: l in s.loops && m in s.loops ==> l == m)
    && forall l <- s.loops :: Tracks(s.log, s.loops[l])
  }

  lemma {:induction false} ReplayBounds(s: GameState, events: seq<Event>, tick: int)
    requires WellFormed(s.roster) && Proper(events) && s.tick <= tick
    requires forall i :: 0 <= i < |events| ==> events[i].tick <= tick
    ensures WellFormed(ReplayedOnto(s, events).roster) && ReplayedOnto(s, events).tick <= tick
    ensures events != [] ==>
      && ReplayedOnto(s, events).tick >= events[|events| - 1].tick
      && events[|events| - 1].roster.states.Keys <= ReplayedOnto(s, events).roster.states.Keys
  {
    if events != [] {
      var rest, last := events[..|events| - 1], events[|events| - 1];
      ReplayBounds(s, rest, tick);
      MergeOverwrites(ReplayedOnto(s, rest).roster, last.roster);
    }
  }

  lemma ColdStartIsCurrent(log: seq<Event>, s: GameState, checkpoint: Option<(int, seq<Event>)>, seen: seq<Event>)
    requires Growing(log) && WellFormed(s.roster) && s.tick == 0 && Proper(seen) && ReplaysFrom(log, checkpoint, seen)
    ensures Current(log, ReplayedOnto(s, seen))
  {
    if log != [] {
      ReplayedEndsInLast(log, checkpoint);
      ReplayBounds(s, seen, LastTick(log));
    } else if checkpoint.Some? {
      NothingSavedFromNothing(checkpoint.value.1, checkpoint.value.0);
    }
  }

  lemma NothingSavedFromNothing(saved: seq<Event>, c: int)
    ensures !SavedFrom([], saved, c)
  {
  }

  lemma UpToDateIsCurrent(log: seq<Event>, snapshot: GameState)
    requires Growing(log) && log != [] && Backed(log, snapshot) && snapshot.tick == LastTick(log)
    ensures Current(log, snapshot)
  {
  }

  lemma AppendGrows(log: seq<Event>, event: Event)
    requires Growing(log) && WellFormed(event.roster) && event.tick >= 1
    requires LastTick(log) < event.tick && LastPlayers(log) <= event.roster.states.Keys
    ensures Growing(log + [event])
  {
  }

  lemma LoadIsOrderly(s: System, e: Step)
    requires OrderlyInv(s) && Enabled(s, e) && Orderly(s, e) && (e.Begin? || e.LoadRedis? || e.ColdStart?)
    ensures OrderlyInv(Next(s, e))
  {
    StepKeepsInv(s, e);
    if e.LoadRedis? {
      UpToDateIsCurrent(s.log, e.snapshot);
    } else if e.ColdStart? {
      assert LoopInv(s, s.loops[e.l]) && Tracks(s.log, s.loops[e.l]);
      var checkpoint :| ReplaysFrom(s.log, checkpoint, e.seen);
      ColdStartIsCurrent(s.log, s.loops[e.l].state, checkpoint, e.seen);
    }
  }

  lemma VisitIsOrderly(s: System, e: Step)
    requires OrderlyInv(s) && Enabled(s, e) && e.Visiting?
    ensures OrderlyInv(Next(s, e))
  {
    StepKeepsInv(s, e);
    assert LoopInv(s, s.loops[e.l]) && Tracks(s.log, s.loops[e.l]);
    VisitKeeps(s.loops[e.l].state.roster, e.visit);
  }

  lemma PrepareIsOrderly(s: System, e: Step)
    requires OrderlyInv(s) && Enabled(s, e) && e.Prepare?
    ensures OrderlyInv(Next(s, e))
  {
    StepKeepsInv(s, e);
    assert LoopInv(s, s.loops[e.l]) && Tracks(s.log, s.loops[e.l]);
    TickPlayers(s.loops[e.l].state.roster, e.messages);
  }

  lemma LastTickNonNegative(log: seq<Event>)
    requires Growing(log)
    ensures LastTick(log) >= 0
  {
  }

  lemma AppendIsOrderly(s: System, e: Step)
    requires OrderlyInv(s) && Enabled(s, e) && Orderly(s, e) && e.Append?
    ensures OrderlyInv(Next(s, e))
  {
    StepKeepsInv(s, e);
    var l :| l in s.loops && s.loops[l].phase == Publishing(e.event);
    assert LoopInv(s, s.loops[l]) && Tracks(s.log, s.loops[l]);
    LastTickNonNegative(s.log);
    AppendGrows(s.log, e.event);
  }

  /** An acknowledged event is the last one of the log. */
  lemma AcknowledgedIsLast(s: System, l: LoopId)
    requires OrderlyInv(s) && l in s.loops && s.loops[l].phase.Publishing? && s.loops[l].phase.event in s.log
    ensures s.log != [] && s.log[|s.log| - 1] == s.loops[l].phase.event
  {
  }

  lemma CommitIsOrderly(s: System, e: Step)
    requires OrderlyInv(s) && Enabled(s, e) && e.Commit?
    ensures OrderlyInv(Next(s, e))
  {
    StepKeepsInv(s, e);
    var loop := s.loops[e.l];
    assert LoopInv(s, loop);
    AcknowledgedIsLast(s, e.l);
    MergeOverwrites(loop.state.roster, loop.phase.event.roster);
  }

  lemma FailIsOrderly(s: System, e: Step)
    requires OrderlyInv(s) && Enabled(s, e) && Orderly(s, e) && e.Fail?
    ensures OrderlyInv(Next(s, e))
  {
  }

  lemma OtherIsOrderly(s: System, e: Step)
    requires OrderlyInv(s) && Enabled(s, e)
    requires e.Saved? || e.Written? || e.Expired? || e.End? || e.Clear? || e.Crash?
    ensures OrderlyInv(Next(s, e))
  {
    StepKeepsInv(s, e);
    forall l <- Next(s, e).loops ensures Tracks(s.log, Next(s, e).loops[l]) {
      assert Tracks(s.log, s.loops[l]);
      OtherTracks(s, e, l);
    }
  }

  lemma OtherTracks(s: System, e: Step, l: LoopId)
    requires Enabled(s, e) && l in s.loops && l in Next(s, e).loops && Tracks(s.log, s.loops[l])
    requires e.Saved? || e.Written? || e.Expired? || e.End? || e.Clear? || e.Crash?
    ensures Tracks(s.log, Next(s, e).loops[l])
  {
  }

  lemma OrderlyStepKeepsInv(s: System, e: Step)
    requires OrderlyInv(s) && Enabled(s, e) && Orderly(s, e)
    ensures OrderlyInv(Next(s, e))
  {
    match e
    case Visiting(_, _) => VisitIsOrderly(s, e);
    case Prepare(_, _, _) => PrepareIsOrderly(s, e);
    case Append(_) => AppendIsOrderly(s, e);
    case Commit(_) => CommitIsOrderly(s, e);
    case Fail(_) => FailIsOrderly(s, e);
    case Begin(_) => LoadIsOrderly(s, e);
    case LoadRedis(_, _) => LoadIsOrderly(s, e);
    case ColdStart(_, _) => LoadIsOrderly(s, e);
    case _ => OtherIsOrderly(s, e);
  }

  ghost predicate CanStepOrderly(s: System, s': System) {
    exists e :: Enabled(s, e) && Orderly(s, e) && s' == Next(s, e)
  }

  ghost predicate OrderlyRun(trace: seq<System>) {
    trace != [] && Init(trace[0]) && forall i | 0 <= i < |trace| - 1 :: CanStepOrderly(trace[i], trace[i + 1])
  }

  ghost predicate OrderlyReachable(s: System) {
    exists trace: seq<System> :: OrderlyRun(trace) && trace[|trace| - 1] == s
  }

  lemma {:induction false} OrderlyRunKeepsInv(trace: seq<System>, i: nat)
    requires OrderlyRun(trace) && i < |trace|
    ensures OrderlyInv(trace[i])
  {
    if i > 0 {
      OrderlyRunKeepsInv(trace, i - 1);
      assert CanStepOrderly(trace[i - 1], trace[i - 1 + 1]);
      var e :| Enabled(trace[i - 1], e) && Orderly(trace[i - 1], e) && trace[i] == Next(trace[i - 1], e);
      OrderlyStepKeepsInv(trace[i - 1], e);
    }
  }

  /** The rebuilt state has the leader's tick and the leader's state of each of its players. */
  ghost predicate Agrees(rebuilt: GameState, leader: GameState) {
    && rebuilt.tick == leader.tick
    && forall id <- rebuilt.roster.states ::
         id in leader.roster.states && rebuilt.roster.states[id] == leader.roster.states[id]
  }

  lemma CommitAgrees(state: GameState, event: Event, rebuilt: GameState)
    requires WellFormed(state.roster) && WellFormed(event.roster) && event.tick == state.tick + 1
    requires rebuilt.tick == event.tick && rebuilt.roster.states == event.roster.states
    ensures Agrees(rebuilt, CommitState(state, event))
    ensures state.roster.states.Keys <= event.roster.states.Keys <==>
              CommitState(state, event).roster.states == rebuilt.roster.states
  {
    MergeOverwrites(state.roster, event.roster);
  }

  /** Replay rebuilds the leader. In an orderly run the log tells the match in order, and
      after every commit a cold start, from any checkpoint or from none, gives the leader's
      tick and the leader's state of every player of the committed event. It gives all of
      the leader's players if and only if nobody is in memory who is not in the event, that
      is, nobody joined for the first time while the publish was awaited. */
  lemma ReplayRebuildsLeader(s: System, l: LoopId, checkpoint: Option<(int, seq<Event>)>)
    requires OrderlyReachable(s) && Enabled(s, Commit(l))
    requires checkpoint.Some? ==> SavedFrom(s.log, checkpoint.value.1, checkpoint.value.0)
    ensures Growing(s.log) && Proper(Replayed(checkpoint, s.log))
    ensures var rebuilt, leader := Fold(Replayed(checkpoint, s.log)), Next(s, Commit(l)).loops[l].state;
      && Agrees(rebuilt, leader)
      && (s.loops[l].state.roster.states.Keys <= s.loops[l].phase.event.roster.states.Keys <==>
            leader.roster.states == rebuilt.roster.states)
  {
    var trace: seq<System> :| OrderlyRun(trace) && trace[|trace| - 1] == s;
    OrderlyRunKeepsInv(trace, |trace| - 1);
    var loop := s.loops[l];
    assert LoopInv(s, loop);
    AcknowledgedIsLast(s, l);
    ColdStartIsExact(s.log, checkpoint);
    CommitAgrees(loop.state, loop.phase.event, Fold(Replayed(checkpoint, s.log)));
  }

  lemma TakeOrderly(s: System, e: Step) returns (s': System)
    requires OrderlyReachable(s) && Enabled(s, e) && Orderly(s, e)
    ensures OrderlyReachable(s') && s' == Next(s, e)
  {
    s' := Next(s, e);
    var trace: seq<System> :| OrderlyRun(trace) && trace[|trace| - 1] == s;
    var longer := trace + [s'];
    forall i | 0 <= i < |longer| - 1 ensures CanStepOrderly(longer[i], longer[i + 1]) {
      if i < |trace| - 1 {
        assert CanStepOrderly(trace[i], trace[i + 1]);
      } else {
        assert longer[i] == s;
      }
    }
    assert longer[|longer| - 1] == s';
  }

  lemma FirstLeader() returns (s: System)
    ensures OrderlyReachable(s) && s.log == [] && s.loops == map[0 := Loop(FRESH, Idle)]
  {
    var s0 := System([], {}, None, {}, {}, map[]);
    assert OrderlyRun([s0]) && [s0][|[s0]| - 1] == s0;
    var s1 := TakeOrderly(s0, Begin(0));
    assert ReplaysFrom(s1.log, None, []);
    s := TakeOrderly(s1, ColdStart(0, []));
    assert s.loops == map[0 := Loop(FRESH, Idle)];
  }

  lemma JoinDuringPublish(s: System, id: PlayerId) returns (s': System)
    requires OrderlyReachable(s) && s.log == [] && s.loops == map[0 := Loop(FRESH, Idle)]
    ensures OrderlyReachable(s') && 0 in s'.loops && s'.loops[0].phase.Publishing?
    ensures WellFormed(s'.loops[0].phase.event.roster) && s'.loops[0].phase.event.roster.states.Keys == {}
    ensures s'.log == [s'.loops[0].phase.event] && s'.loops[0].phase.event.tick == 1
    ensures WellFormed(s'.loops[0].state.roster) && id in s'.loops[0].state.roster.states
  {
    QuietTick(NOBODY);
    var s1 := TakeOrderly(s, Prepare(0, 0, []));
    var s2 := TakeOrderly(s1, Visiting(0, Join(id, None)));
    VisitKeeps(NOBODY, Join(id, None));
    s' := TakeOrderly(s2, Append(s2.loops[0].phase.event));
  }

  /** An orderly run in which it is not: a first join during the publish is in the leader's
      memory after the commit, and replay does not know of it. */
  lemma FirstJoinIsMissing() returns (s: System)
    ensures OrderlyReachable(s) && Enabled(s, Commit(0)) && Proper(s.log)
    ensures 1 in Next(s, Commit(0)).loops[0].state.roster.states && 1 !in Fold(s.log).roster.states
  {
    var s1 := FirstLeader();
    s := JoinDuringPublish(s1, 1);
    var loop := s.loops[0];
    assert s.log[0] in s.log;
    MergeOverwrites(loop.state.roster, loop.phase.event.roster);
    FoldAtMost(s.log, {}, 1);
  }

  // ------------------------------------------- which takeovers keep replay exact

  /** The next event of a match told in order so far is rebuilt by replay if and only if its
      tick is no lower than the last one and it has all the players of the last event. */
  lemma NextEventIsRebuiltIff(log: seq<Event>, e: Event)
    requires Growing(log) && WellFormed(e.roster)
    ensures Proper(log + [e])
    ensures Fold(log + [e]).roster.states == e.roster.states && Fold(log + [e]).tick == e.tick <==>
              LastTick(log) <= e.tick && LastPlayers(log) <= e.roster.states.Keys
  {
    var longer := log + [e];
    FoldIsLastEvent(longer);
    if LastCovers(longer) && log != [] {
      assert longer[|log| - 1] == log[|log| - 1];
    } else if LastTick(log) <= e.tick && LastPlayers(log) <= e.roster.states.Keys {
      forall i | 0 <= i < |longer|
        ensures longer[i].tick <= e.tick && longer[i].roster.states.Keys <= e.roster.states.Keys
      {
        assert i < |log| ==> log[i].tick <= LastTick(log) && log[i].roster.states.Keys <= LastPlayers(log);
      }
    }
  }

  /** Whether replay rebuilds the event of the next tick of loop l, for inputs `messages`. */
  ghost predicate NextTickIsRebuilt(s: System, l: LoopId, messages: seq<Message>)
    requires Proper(s.log) && Enabled(s, Prepare(l, 0, messages))
  {
    var e := EventOf(s, Prepare(l, 0, messages));
    var rebuilt := Fold(s.log + [e]);
    rebuilt.roster.states == e.roster.states && rebuilt.tick == e.tick
  }

  /** What an instance can check when it takes over: whatever the inputs of its first tick
      are, replay rebuilds that tick if and only if the state it starts from is at most one
      tick behind the log and has all the players of the last event. */
  lemma TakeoverIsSafeIff(s: System, l: LoopId)
    requires Growing(s.log) && In(s, l, Idle) && WellFormed(s.loops[l].state.roster)
    ensures (forall messages :: Playable(messages) ==> NextTickIsRebuilt(s, l, messages)) <==>
              LastTick(s.log) <= s.loops[l].state.tick + 1
              && LastPlayers(s.log) <= s.loops[l].state.roster.states.Keys
  {
    var state := s.loops[l].state;
    forall messages | Playable(messages)
      ensures NextTickIsRebuilt(s, l, messages) <==>
                LastTick(s.log) <= state.tick + 1
                && LastPlayers(s.log) <= state.roster.states.Keys + Senders(messages)
    {
      TickPlayers(state.roster, messages);
      NextEventIsRebuiltIff(s.log, EventOf(s, Prepare(l, 0, messages)));
    }
    assert Playable([]) && Senders([]) == {};
    assert state.roster.states.Keys + {} == state.roster.states.Keys;
    assert NextTickIsRebuilt(s, l, []) <==>
             LastTick(s.log) <= state.tick + 1 && LastPlayers(s.log) <= state.roster.states.Keys + Senders([]);
  }

  // ------------------------------------------------ a stale takeover breaks replay

  /** A lone loop ticks with no input; player `id` joins first. */
  lemma JoinAndPublish(s: System, l: LoopId, id: PlayerId) returns (s': System)
    requires Reachable(s) && In(s, l, Idle)
    ensures Reachable(s') && l in s'.loops && s'.loops[l].phase.Publishing? && s'.writes == s.writes
    ensures s'.loops.Keys == s.loops.Keys && s'.log == s.log + [s'.loops[l].phase.event]
    ensures s'.loops[l].phase.event.roster.states.Keys == s.loops[l].state.roster.states.Keys + {id}
    ensures WellFormed(s'.loops[l].phase.event.roster)
    ensures s'.loops[l].state.roster.states.Keys == s.loops[l].state.roster.states.Keys + {id}
    ensures s'.loops[l].state.tick == s.loops[l].state.tick && s'.loops[l].phase.event.tick == s.loops[l].state.tick + 1
  {
    var s1 := Take(s, Visiting(l, Join(id, None)));
    ReachableIsGood(s1, l);
    QuietTick(s1.loops[l].state.roster);
    s' := PublishIsARun(s1, Prepare(l, 0, []), EventOf(s1, Prepare(l, 0, [])));
  }

  lemma QuietTick(r: Roster)
    requires WellFormed(r)
    ensures Playable([]) && Ticked(r, []).states.Keys == r.states.Keys
  {
  }

  lemma CommitAndSave(s: System, l: LoopId) returns (s': System)
    requires Reachable(s) && l in s.loops && s.loops[l].phase.Publishing? && s.loops[l].phase.event in s.log
    ensures Reachable(s') && In(s', l, Idle) && s'.log == s.log && s'.loops.Keys == s.loops.Keys
    ensures s'.loops[l].state in s'.writes && s'.loops[l].state.tick == s.loops[l].state.tick + 1
    ensures s'.loops[l].state.roster.states.Keys
            == s.loops[l].state.roster.states.Keys + s.loops[l].phase.event.roster.states.Keys
  {
    PublishedIsGood(s, l);
    CommitKeys(s.loops[l].state, s.loops[l].phase.event);
    var s1 := Take(s, Commit(l));
    s' := Take(s1, Saved(l));
  }

  lemma FreshLoop() returns (s: System)
    ensures Reachable(s) && s.loops == map[0 := Loop(FRESH, Idle)] && s.log == []
  {
    var s0 := System([], {}, None, {}, {}, map[]);
    assert Run([s0]) && [s0][|[s0]| - 1] == s0;
    var s1 := Take(s0, Begin(0));
    s := Take(s1, ColdStart(0, []));
    assert s.loops == map[0 := Loop(FRESH, Idle)];
  }

  lemma FirstTick() returns (s: System)
    ensures Reachable(s) && s.loops.Keys == {0} && In(s, 0, Idle) && |s.log| == 1
    ensures s.log[0].tick == 1 && s.log[0].roster.states.Keys == {1} && WellFormed(s.log[0].roster)
    ensures s.loops[0].state in s.writes && s.loops[0].state.roster.states.Keys == {1} && s.loops[0].state.tick == 1
  {
    var s2 := FreshLoop();
    var s3 := JoinAndPublish(s2, 0, 1);
    assert s3.log[0] in s3.log;
    s := CommitAndSave(s3, 0);
  }

  // ---------------------------------------- a cold start does not know where a match begins

  /** One match has been played and cleared, and the next one has begun on the same topic. */
  lemma NextMatchBegun() returns (s: System)
    ensures Reachable(s) && s.loops == map[0 := Loop(FRESH, Idle)] && s.redis.None? && |s.log| == 1
    ensures WellFormed(s.log[0].roster) && s.log[0].tick == 1 && s.log[0].roster.states.Keys == {1}
  {
    var s1 := FreshLoop();
    var s2 := JoinAndPublish(s1, 0, 1);
    assert s2.log[0] in s2.log;
    PublishedIsGood(s2, 0);
    var s3 := Take(s2, Commit(0));
    s := MatchEnds(s3, 0);
  }

  lemma MatchEnds(s: System, l: LoopId) returns (s': System)
    requires Reachable(s) && In(s, l, Saving) && s.loops.Keys == {l} && s.loops[l].state in s.writes
    ensures Reachable(s') && s'.loops == map[l := Loop(FRESH, Idle)] && s'.redis.None? && s'.log == s.log
  {
    var s0 := Take(s, Written(s.loops[l].state));
    assert s0.redis.Some?;
    var s1 := Take(s0, End(l));
    var s2 := Take(s1, Clear(l));
    s' := Take(s2, NextMatch(l));
    assert s'.loops == map[l := Loop(FRESH, Idle)];
  }

  /** When an instance takes over in a match that has only just begun, with nothing in Redis,
      its cold start gives the new match the tick and the players of the match before. */
  lemma OldMatchComesBack() returns (begun: System, s: System)
    ensures Reachable(begun) && begun.loops == map[0 := Loop(FRESH, Idle)] && begun.redis.None?
    ensures Reachable(s) && s.log == begun.log && s.redis.None? && In(s, 1, Idle)
    ensures s.loops[1].state.tick == 1 && s.loops[1].state.roster.states.Keys == {1}
  {
    begun := NextMatchBegun();
    var s2 := NewInstance(begun, 0, 1);
    MergeOverwrites(NOBODY, begun.log[0].roster);
    ReplayOfOne(begun.log[0]);
    assert begun.log == [begun.log[0]];
    s := Take(s2, ColdStart(1, begun.log));
  }

  lemma ReplayOfOne(e: Event)
    requires WellFormed(e.roster) && e.tick >= 0
    ensures Proper([e]) && ReplayedOnto(FRESH, [e]) == GameState(Merged(NOBODY, e.roster), e.tick)
  {
    assert [e][..0] == [];
  }

  /** The leader crashes and another instance starts to load. */
  lemma NewInstance(s: System, l: LoopId, m: LoopId) returns (s': System)
    requires Reachable(s) && s.loops.Keys == {l} && l != m
    ensures Reachable(s') && In(s', m, Loading) && s'.log == s.log && s'.writes == s.writes
    ensures s'.redis == s.redis && s'.loops[m].state == FRESH
  {
    var s1 := Take(s, Crash(l));
    s' := Take(s1, Begin(m));
  }

  /** An instance loading while the snapshot that Redis was last given is behind the log. */
  lemma StaleSnapshot() returns (s: System, snapshot: GameState)
    ensures Reachable(s) && Growing(s.log) && Enabled(s, LoadRedis(1, snapshot))
    ensures snapshot.tick + 1 == LastTick(s.log) && !(LastPlayers(s.log) <= snapshot.roster.states.Keys)
  {
    var s1 := FirstTick();
    snapshot := s1.loops[0].state;
    var s2 := JoinAndPublish(s1, 0, 2);
    s := NewInstance(s2, 0, 1);
    assert s.log == [s1.log[0], s2.loops[0].phase.event];
    assert 2 in LastPlayers(s.log) && 2 !in snapshot.roster.states;
  }

  lemma MissingPlayerIsNotRebuilt(s: System, l: LoopId)
    requires Growing(s.log) && In(s, l, Idle) && WellFormed(s.loops[l].state.roster)
    requires !(LastPlayers(s.log) <= s.loops[l].state.roster.states.Keys)
    ensures Enabled(s, Prepare(l, 0, [])) && !NextTickIsRebuilt(s, l, [])
  {
    QuietTick(s.loops[l].state.roster);
    NextEventIsRebuiltIff(s.log, EventOf(s, Prepare(l, 0, [])));
  }

  /** The condition can fail: after a crash between publish and commit, the snapshot that
      Redis was last given is one tick behind the log and lacks a player of the last event;
      the instance that takes over from it may publish a tick that replay does not rebuild. */
  lemma StaleTakeoverBreaksReplay() returns (s: System, snapshot: GameState)
    ensures Reachable(s) && Growing(s.log) && Enabled(s, LoadRedis(1, snapshot))
    ensures snapshot.tick + 1 == LastTick(s.log) && !(LastPlayers(s.log) <= snapshot.roster.states.Keys)
    ensures var taken := Next(s, LoadRedis(1, snapshot));
      && Reachable(taken) && Enabled(taken, Prepare(1, 0, [])) && !NextTickIsRebuilt(taken, 1, [])
  {
    s, snapshot := StaleSnapshot();
    var taken := Take(s, LoadRedis(1, snapshot));
    ReachableIsGood(taken, 1);
    MissingPlayerIsNotRebuilt(taken, 1);
  }

  lemma PublishedIsGood(s: System, l: LoopId)
    requires Reachable(s) && l in s.loops && s.loops[l].phase.Publishing?
    ensures WellFormed(s.loops[l].state.roster) && WellFormed(s.loops[l].phase.event.roster)
  {
    var trace: seq<System> :| Run(trace) && trace[|trace| - 1] == s;
    RunKeepsInv(trace, |trace| - 1);
    assert LoopInv(s, s.loops[l]);
  }

  lemma CommitKeys(state: GameState, event: Event)
    requires WellFormed(state.roster) && WellFormed(event.roster)
    ensures CommitState(state, event).roster.states.Keys == state.roster.states.Keys + event.roster.states.Keys
  {
    MergeOverwrites(state.roster, event.roster);
  }
}
