// Replay checkpoints: what the replay service stores while it consumes the events topic,
// and why a checkpoint plus the newer events rebuild the state of the match.
module Checkpoints {
  import opened Options
  import opened Arena
  import opened MatchState

  // ------------------------------------------------- replay from a checkpoint

  /** The events a cold start applies after a checkpoint taken at tick `c`. */
  function Newer(log: seq<Event>, c: int): (newer: seq<Event>)
    ensures forall i :: 0 <= i < |newer| ==> newer[i] in log && newer[i].tick > c
  {
    if log == [] then []
    else
      var rest := Newer(log[..|log| - 1], c);
      if log[|log| - 1].tick > c then rest + [log[|log| - 1]] else rest
  }

  /** The events a cold start applies, in order. */
  function Replayed(checkpoint: Option<(int, seq<Event>)>, log: seq<Event>): seq<Event> {
    match checkpoint
    case None => log
    case Some((c, saved)) => saved + Newer(log, c)
  }

  lemma NewerOfOne(e: Event, c: int)
    ensures Newer([e], c) == if c < e.tick then [e] else []
  {
    assert [e][..0] == [];
  }

  /** All that are newer, in the order of the log, each as often as it is there. */
  lemma {:induction false} NewerIsInOrder(a: seq<Event>, b: seq<Event>, c: int)
    ensures Newer(a + b, c) == Newer(a, c) + Newer(b, c)
    ensures |b| == 1 ==> Newer(b, c) == if c < b[0].tick then b else []
  {
    if |b| == 1 {
      NewerOfOne(b[0], c);
    }
    if b == [] {
      assert a + b == a;
    } else {
      var rest := b[..|b| - 1];
      NewerIsInOrder(a, rest, c);
      assert (a + b)[..|a + b| - 1] == a + rest;
    }
  }

  lemma {:induction false} NewerEmpty(log: seq<Event>, c: int)
    requires forall i :: 0 <= i < |log| ==> log[i].tick <= c
    ensures Newer(log, c) == []
  {
    if log != [] {
      NewerEmpty(log[..|log| - 1], c);
    }
  }

  /** What a checkpoint at tick `c` may hold: events of the log, repeated or with gaps,
      none newer than `c`, the event of tick `c` last. */
  ghost predicate SavedFrom(log: seq<Event>, saved: seq<Event>, c: int) {
    && saved != [] && saved[|saved| - 1].tick == c
    && forall i :: 0 <= i < |saved| ==> saved[i] in log && saved[i].tick <= c
  }

  lemma {:induction false} GrowingByTick(log: seq<Event>, e: Event, f: Event)
    requires Growing(log) && e in log && f in log && e.tick <= f.tick
    ensures e.roster.states.Keys <= f.roster.states.Keys
    ensures e.tick == f.tick ==> e == f
    ensures f.tick >= 1 && WellFormed(f.roster)
  {
  }

  /** The last event of a growing log covers any selection of its events that ends in it. */
  lemma SelectionIsCovered(log: seq<Event>, seen: seq<Event>)
    requires Growing(log) && seen != [] && forall i :: 0 <= i < |seen| ==> seen[i] in log
    requires forall i :: 0 <= i < |seen| ==> seen[i].tick <= seen[|seen| - 1].tick
    ensures Proper(seen) && LastCovers(seen)
  {
  }

  /** What a cold start replays consists of events of the log and ends with the last one. */
  lemma ReplayedEndsInLast(log: seq<Event>, checkpoint: Option<(int, seq<Event>)>)
    requires Growing(log) && log != []
    requires checkpoint.Some? ==> SavedFrom(log, checkpoint.value.1, checkpoint.value.0)
    ensures var seen, last := Replayed(checkpoint, log), log[|log| - 1];
      && seen != [] && seen[|seen| - 1] == last
      && forall i :: 0 <= i < |seen| ==> seen[i] in log && seen[i].tick <= last.tick
  {
    var seen, last := Replayed(checkpoint, log), log[|log| - 1];
    assert forall i :: 0 <= i < |log| ==> log[i].tick <= last.tick;
    if checkpoint.Some? {
      var (c, saved) := checkpoint.value;
      var newer, top := Newer(log, c), saved[|saved| - 1];
      if last.tick > c {
        assert newer[|newer| - 1] == last;
      } else {
        assert top.tick <= last.tick by {
          var i :| 0 <= i < |log| && log[i] == top;
        }
        GrowingByTick(log, top, last);
        NewerEmpty(log, c);
        assert seen == saved;
      }
    }
    forall i | 0 <= i < |seen| ensures seen[i] in log && seen[i].tick <= last.tick {
      assert seen[i] in log;
      var k :| 0 <= k < |log| && log[k] == seen[i];
    }
  }

  /** A cold start, from such a checkpoint and the newer events or from the whole log,
      rebuilds exactly the last event's players and tick. */
  lemma ColdStartIsExact(log: seq<Event>, checkpoint: Option<(int, seq<Event>)>)
    requires Growing(log) && log != []
    requires checkpoint.Some? ==> SavedFrom(log, checkpoint.value.1, checkpoint.value.0)
    ensures var seen := Replayed(checkpoint, log);
      && Proper(seen)
      && Fold(seen).roster.states == log[|log| - 1].roster.states && Fold(seen).tick == log[|log| - 1].tick
  {
    ReplayedEndsInLast(log, checkpoint);
    SelectionIsCovered(log, Replayed(checkpoint, log));
    FoldOfCovered(Replayed(checkpoint, log));
  }

  /** If each event's dictionary begins like that of the one before, the cold start rebuilds
      the last one's order too; it decides whom a shot hits and who wins. */
  lemma ColdStartKeepsOrder(log: seq<Event>, checkpoint: Option<(int, seq<Event>)>)
    requires Growing(log) && log != []
    requires forall i, j :: 0 <= i < j < |log| ==> log[i].roster.order <= log[j].roster.order
    requires checkpoint.Some? ==> SavedFrom(log, checkpoint.value.1, checkpoint.value.0)
    ensures var seen := Replayed(checkpoint, log);
      Proper(seen) && Fold(seen).roster == log[|log| - 1].roster && Fold(seen).tick == log[|log| - 1].tick
  {
    var seen, last := Replayed(checkpoint, log), log[|log| - 1];
    ColdStartIsExact(log, checkpoint);
    ReplayedEndsInLast(log, checkpoint);
    SelectionWithin(log, seen);
    FoldOrder(seen, last.roster.order);
    assert seen[|seen| - 1].roster.order <= Fold(seen).roster.order;
  }

  lemma SelectionWithin(log: seq<Event>, seen: seq<Event>)
    requires log != [] && forall i :: 0 <= i < |seen| ==> seen[i] in log
    requires forall i, j :: 0 <= i < j < |log| ==> log[i].roster.order <= log[j].roster.order
    ensures OrdersWithin(seen, log[|log| - 1].roster.order)
  {
    forall i | 0 <= i < |seen| ensures seen[i].roster.order <= log[|log| - 1].roster.order {
      var k :| 0 <= k < |log| && log[k] == seen[i];
    }
  }

  /** The `snapshot` column is the fold of the `events` column. */
  lemma SnapshotIsFold(log: seq<Event>, saved: seq<Event>, c: int)
    requires Growing(log) && SavedFrom(log, saved, c)
    ensures Proper(saved) && Fold(saved).roster.states == saved[|saved| - 1].roster.states && Fold(saved).tick == c
  {
    SelectionIsCovered(log, saved);
    FoldOfCovered(saved);
  }
}
