// The held slots of a room's players in Redis, over the runs of module MatchSystem: a
// leave writes the slot, a join first reads the one there is and then restores it, and
// slots run out or are deleted. The three are separate steps, and others may come between.
module HeldSlots {
  import opened Options
  import opened Arena
  import opened MatchState
  import opened MatchSystem

  type Token = nat

  /** What a join read for its player. */
  datatype SlotRead = SlotRead(id: PlayerId, hold: Option<Hold>)

  datatype Room = Room(system: System, slots: map<PlayerId, Hold>, joins: map<Token, SlotRead>)

  datatype Move =
    | Leaving(l: LoopId, id: PlayerId)
    | SlotKept(id: PlayerId, hold: Hold)  // the write of a slot takes effect
    | SlotGone(id: PlayerId)              // the slot runs out, or a join's delete takes effect
    | Reading(t: Token, id: PlayerId)     // the join t reads the slot
    | Joining(l: LoopId, t: Token)        // and enters its player into a loop's memory
    | Other(step: Step)

  function SlotOf(r: Room, id: PlayerId): Option<Hold> {
    if id in r.slots then Some(r.slots[id]) else None
  }

  /** The step of the room that a move is, if it is one. */
  function StepOf(r: Room, m: Move): Option<Step>
    requires m.Joining? ==> m.t in r.joins
  {
    match m
    case Leaving(l, id) => Some(Visiting(l, Leave(id)))
    case Joining(l, t) => Some(Visiting(l, Join(r.joins[t].id, r.joins[t].hold)))
    case Other(step) => Some(step)
    case _ => None
  }

  ghost predicate Possible(r: Room, m: Move) {
    && (m.SlotKept? ==> (m.id, m.hold) in r.system.held)
    && (m.Reading? ==> m.t !in r.joins)
    && (m.Joining? ==> m.t in r.joins)
    && (m.Other? ==> !m.step.Visiting?)
    && (StepOf(r, m).Some? ==> Enabled(r.system, StepOf(r, m).value))
  }

  ghost function AfterMove(r: Room, m: Move): Room
    requires Possible(r, m)
  {
    match m
    case SlotKept(id, hold) => r.(slots := r.slots[id := hold])
    case SlotGone(id) => r.(slots := r.slots - {id})
    case Reading(t, id) => r.(joins := r.joins[t := SlotRead(id, SlotOf(r, id))])
    case _ => r.(system := Next(r.system, StepOf(r, m).value))
  }

  ghost predicate RoomRun(trace: seq<Room>, moves: seq<Move>) {
    && |trace| == |moves| + 1
    && Init(trace[0].system) && trace[0].slots == map[] && trace[0].joins == map[]
    && forall i | 0 <= i < |moves| :: Follows(trace[i], moves[i], trace[i + 1])
  }

  ghost predicate Follows(r: Room, m: Move, r': Room) {
    Possible(r, m) && r' == AfterMove(r, m)
  }

  // -------------------------------------------------- every run is one of the system

  ghost predicate KnownSlots(r: Room) {
    && (forall id <- r.slots :: (id, r.slots[id]) in r.system.held)
    && (forall t <- r.joins :: r.joins[t].hold.Some? ==> (r.joins[t].id, r.joins[t].hold.value) in r.system.held)
  }

  lemma HeldGrows(s: System, e: Step)
    requires Enabled(s, e)
    ensures s.held <= Next(s, e).held
  {
  }

  lemma MoveKeepsKnownSlots(r: Room, m: Move)
    requires KnownSlots(r) && Possible(r, m)
    ensures KnownSlots(AfterMove(r, m))
  {
    if StepOf(r, m).Some? {
      HeldGrows(r.system, StepOf(r, m).value);
    }
  }

  lemma {:induction false} RunKeepsKnownSlots(trace: seq<Room>, moves: seq<Move>, i: nat)
    requires RoomRun(trace, moves) && i < |trace|
    ensures KnownSlots(trace[i]) && Reachable(trace[i].system)
  {
    if i == 0 {
      var start := [trace[0].system];
      assert Run(start) && start[|start| - 1] == trace[0].system;
    } else {
      RunKeepsKnownSlots(trace, moves, i - 1);
      assert Follows(trace[i - 1], moves[i - 1], trace[i - 1 + 1]);
      MoveKeepsKnownSlots(trace[i - 1], moves[i - 1]);
      var step := StepOf(trace[i - 1], moves[i - 1]);
      if step.Some? {
        var _ := Take(trace[i - 1].system, step.value);
      }
    }
  }

  /** A join that has read its slot is never refused: whatever it read was once kept. So
      every run here is a run of the room, and all that is proved of those holds. */
  lemma JoinIsNeverRefused(trace: seq<Room>, moves: seq<Move>, i: nat, l: LoopId, t: Token)
    requires RoomRun(trace, moves) && i < |trace| && t in trace[i].joins && l in trace[i].system.loops
    ensures Reachable(trace[i].system) && Possible(trace[i], Joining(l, t))
  {
    RunKeepsKnownSlots(trace, moves, i);
  }

  // --------------------------------------------------- which slot a join comes back to

  predicate ChangesSlot(m: Move, id: PlayerId) {
    (m.SlotKept? || m.SlotGone?) && m.id == id
  }

  /** Move k kept this slot for the player, and nothing has touched it until move i. */
  ghost predicate LastKept(moves: seq<Move>, i: nat, k: nat, id: PlayerId, hold: Hold) {
    && k < i <= |moves| && moves[k] == SlotKept(id, hold)
    && forall j | k < j < i :: !ChangesSlot(moves[j], id)
  }

  ghost predicate Latest(moves: seq<Move>, i: nat, id: PlayerId, hold: Hold) {
    exists k: nat :: LastKept(moves, i, k, id, hold)
  }

  lemma LatestAfter(moves: seq<Move>, i: nat, id: PlayerId, hold: Hold)
    requires i < |moves|
    ensures Latest(moves, i + 1, id, hold) <==>
              if ChangesSlot(moves[i], id) then moves[i] == SlotKept(id, hold) else Latest(moves, i, id, hold)
  {
    if Latest(moves, i + 1, id, hold) {
      var k: nat :| LastKept(moves, i + 1, k, id, hold);
      assert k < i ==> LastKept(moves, i, k, id, hold);
    }
    if moves[i] == SlotKept(id, hold) {
      assert LastKept(moves, i + 1, i, id, hold);
    } else if !ChangesSlot(moves[i], id) && Latest(moves, i, id, hold) {
      var k: nat :| LastKept(moves, i, k, id, hold);
      assert LastKept(moves, i + 1, k, id, hold);
    }
  }

  lemma MoveChangesSlot(r: Room, m: Move, id: PlayerId)
    requires Possible(r, m)
    ensures SlotOf(AfterMove(r, m), id)
            == if !ChangesSlot(m, id) then SlotOf(r, id) else if m.SlotKept? then Some(m.hold) else None
  {
  }

  /** At most one slot per player: at any moment of any run there is a slot with these
      values if and only if it is the last one kept and has neither run out nor been
      deleted since. */
  lemma {:induction false} SlotIsLatestKept(trace: seq<Room>, moves: seq<Move>, i: nat, id: PlayerId, hold: Hold)
    requires RoomRun(trace, moves) && i < |trace|
    ensures SlotOf(trace[i], id) == Some(hold) <==> Latest(moves, i, id, hold)
  {
    if i > 0 {
      SlotIsLatestKept(trace, moves, i - 1, id, hold);
      assert Follows(trace[i - 1], moves[i - 1], trace[i - 1 + 1]);
      MoveChangesSlot(trace[i - 1], moves[i - 1], id);
      LatestAfter(moves, i - 1, id, hold);
    }
  }

  lemma {:induction false} ReadStays(trace: seq<Room>, moves: seq<Move>, i: nat, j: nat, t: Token)
    requires RoomRun(trace, moves) && i <= j < |trace| && t in trace[i].joins
    ensures t in trace[j].joins && trace[j].joins[t] == trace[i].joins[t]
    decreases j
  {
    if i < j {
      ReadStays(trace, moves, i, j - 1, t);
      assert Follows(trace[j - 1], moves[j - 1], trace[j - 1 + 1]);
    }
  }

  /** A join that read before move `join` restores what was there when it read. */
  lemma JoinRestoresWhatItRead(trace: seq<Room>, moves: seq<Move>, read: nat, join: nat)
    requires RoomRun(trace, moves) && read < join < |moves|
    requires moves[read].Reading? && moves[join].Joining? && moves[join].t == moves[read].t
    ensures moves[join].l in trace[join].system.loops && moves[join].l in trace[join + 1].system.loops
    ensures trace[join + 1].system.loops[moves[join].l].state.roster
            == Visited(trace[join].system.loops[moves[join].l].state.roster,
                       Join(moves[read].id, SlotOf(trace[read], moves[read].id)))
  {
    assert Follows(trace[read], moves[read], trace[read + 1]);
    ReadStays(trace, moves, read + 1, join, moves[read].t);
    assert Follows(trace[join], moves[join], trace[join + 1]);
  }

  /** A player who left, on any loop, and whose slot was kept and not touched until a later
      join read it, comes back, on any loop, as it was when it left, whatever happened to
      the room or to the other players between these four moves; and nobody else changes. */
  lemma RejoinRestoresPlayer(trace: seq<Room>, moves: seq<Move>, leave: nat, kept: nat, read: nat, join: nat)
    requires RoomRun(trace, moves) && leave < kept < read < join < |moves|
    requires moves[leave].Leaving? && moves[leave].l in trace[leave].system.loops
    requires moves[read].Reading? && moves[read].id == moves[leave].id
    requires moves[join].Joining? && moves[join].t == moves[read].t
    requires moves[leave].id in trace[leave].system.loops[moves[leave].l].state.roster.states
    requires var left := trace[leave].system.loops[moves[leave].l].state.roster.states[moves[leave].id];
      LastKept(moves, read, kept, moves[leave].id, HoldOf(left))
    ensures var id, left := moves[leave].id, trace[leave].system.loops[moves[leave].l].state.roster.states[moves[leave].id];
      && moves[join].l in trace[join].system.loops && moves[join].l in trace[join + 1].system.loops
      && trace[join + 1].system.loops[moves[join].l].state.roster.states
         == trace[join].system.loops[moves[join].l].state.roster.states[id := left.(connected := true)]
  {
    var id, left := moves[leave].id, trace[leave].system.loops[moves[leave].l].state.roster.states[moves[leave].id];
    SlotIsLatestKept(trace, moves, read, id, HoldOf(left));
    JoinRestoresWhatItRead(trace, moves, read, join);
    RunKeepsKnownSlots(trace, moves, leave);
    ReachableIsGood(trace[leave].system, moves[leave].l);
    RunKeepsKnownSlots(trace, moves, join);
    ReachableIsGood(trace[join].system, moves[join].l);
    RejoinRestoresSlot(trace[leave].system.loops[moves[leave].l].state.roster,
                       trace[join].system.loops[moves[join].l].state.roster, id);
  }
}
