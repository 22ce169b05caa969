// The spectator ring buffer: a bounded list of committed ticks from which
// spectators are shown the match as it was `delayTicks` ago.
module Spectator {
  import opened Options

  datatype Entry<S> = Entry(tick: int, state: S)

  /** What a buffer of capacity `size` still holds of everything appended to it. */
  function Window<S>(history: seq<Entry<S>>, size: int): seq<Entry<S>> {
    if size <= 0 then [] else if |history| <= size then history else history[|history| - size..]
  }

  /** Index of the newest entry at or before `target`; the oldest entry when there is none. */
  function LookupIndex<S>(entries: seq<Entry<S>>, target: int): (k: nat)
    requires entries != []
    ensures k < |entries|
    ensures forall m :: k < m < |entries| ==> entries[m].tick > target
    ensures k > 0 ==> entries[k].tick <= target
  {
    if |entries| == 1 || entries[|entries| - 1].tick <= target then |entries| - 1
    else LookupIndex(entries[..|entries| - 1], target)
  }

  function Lookup<S>(entries: seq<Entry<S>>, target: int): Option<S> {
    if entries == [] then None else Some(entries[LookupIndex(entries, target)].state)
  }

  /** Ticks follow each other without a gap, as the game loop appends them. */
  ghost predicate Consecutive<S>(history: seq<Entry<S>>) {
    forall k :: 0 <= k < |history| ==> history[k].tick == history[0].tick + k
  }

  class SpectatorRingBuffer<S> {
    var buffer: seq<Entry<S>>
    const maxSize: int
    const delayTicks: int
    ghost var history: seq<Entry<S>>  // every entry ever appended

    ghost predicate Valid()
      reads this
    {
      buffer == Window(history, maxSize)
    }

    constructor (maxSize: int, delayTicks: int)
      ensures Valid() && history == []
      ensures this.maxSize == maxSize && this.delayTicks == delayTicks
    {
      this.maxSize, this.delayTicks := maxSize, delayTicks;
      buffer, history := [], [];
    }

    method Append(tick: int, state: S)
      requires Valid()
      modifies this
      ensures Valid()
      ensures history == old(history) + [Entry(tick, state)]
    {
      buffer := buffer + [Entry(tick, state)];
      history := history + [Entry(tick, state)];
      if |buffer| > maxSize {
        buffer := buffer[1..];
      }
    }

    // Agreement with the unbounded history is DelayedStateIsExact below.
    method GetDelayedState(currentTick: int) returns (state: Option<S>)
      requires Valid()
      ensures state == Lookup(Window(history, maxSize), currentTick - delayTicks)
      ensures state.None? <==> history == [] || maxSize <= 0
    {
      var targetTick := currentTick - delayTicks;
      var n := |buffer|;
      while n > 0
        invariant 0 <= n <= |buffer|
        invariant forall m :: n <= m < |buffer| ==> buffer[m].tick > targetTick
      {
        n := n - 1;
        if buffer[n].tick <= targetTick {
          var k := LookupIndex(buffer, targetTick);
          assert k == n;
          return Some(buffer[n].state);
        }
      }
      return if buffer == [] then None else Some(buffer[0].state);
    }
  }

  /** The index from 0 to size - 1 that is nearest to n. */
  function Nearest(n: int, size: nat): int {
    if n >= size then size - 1 else if n <= 0 then 0 else n
  }

  lemma LookupConsecutive<S>(history: seq<Entry<S>>, target: int)
    requires history != [] && Consecutive(history)
    ensures LookupIndex(history, target) == Nearest(target - history[0].tick, |history|)
    ensures history[LookupIndex(history, target)].tick == history[0].tick + LookupIndex(history, target)
  {
    var k := LookupIndex(history, target);
    assert history[k].tick == history[0].tick + k;
    assert k + 1 < |history| ==> history[k + 1].tick == history[0].tick + k + 1;
  }

  lemma WindowConsecutive<S>(history: seq<Entry<S>>, size: int)
    requires history != [] && Consecutive(history) && size >= 1
    ensures var w := Window(history, size);
            && |w| == (if |history| <= size then |history| else size)
            && Consecutive(w) && w[0].tick == history[0].tick + |history| - |w|
  {
    var w := Window(history, size);
    forall k | 0 <= k < |w| ensures w[k].tick == history[0].tick + |history| - |w| + k {
      assert w[k] == history[|history| - |w| + k];
    }
  }

  lemma LastTick<S>(history: seq<Entry<S>>)
    requires history != [] && Consecutive(history)
    ensures history[|history| - 1].tick == history[0].tick + |history| - 1
  {
  }

  /** What is shown `delay` ticks after it happened, by index and tick. */
  lemma HistoryIndex<S>(history: seq<Entry<S>>, last: Entry<S>, delay: nat)
    requires history != [] && Consecutive(history) && last == history[|history| - 1]
    ensures var k := LookupIndex(history, last.tick - delay);
            k == Nearest(|history| - 1 - delay, |history|) && history[k].tick == history[0].tick + k
  {
    LastTick(history);
    LookupConsecutive(history, last.tick - delay);
  }

  lemma WindowIndex<S>(history: seq<Entry<S>>, last: Entry<S>, maxSize: int, delay: nat)
    requires history != [] && Consecutive(history) && maxSize >= 1 && last == history[|history| - 1]
    ensures var w := Window(history, maxSize);
            && w != [] && |w| == (if |history| <= maxSize then |history| else maxSize)
            && var k := LookupIndex(w, last.tick - delay);
               k == Nearest(|w| - 1 - delay, |w|) && w[k].tick == history[0].tick + |history| - |w| + k
  {
    WindowConsecutive(history, maxSize);
    HistoryIndex(Window(history, maxSize), last, delay);
  }

  lemma DelayedIndex<S>(history: seq<Entry<S>>, maxSize: int, delay: nat)
    requires history != [] && Consecutive(history) && maxSize >= 1
    ensures var w, target := Window(history, maxSize), history[|history| - 1].tick - delay;
            && w != [] && LookupIndex(w, target) == Nearest(|w| - 1 - delay, |w|)
            && LookupIndex(history, target) == Nearest(|history| - 1 - delay, |history|)
            && history[LookupIndex(history, target)].tick
               == if target <= history[0].tick then history[0].tick else target
  {
    var last := history[|history| - 1];
    WindowIndex(history, last, maxSize, delay);
    HistoryIndex(history, last, delay);
    LastTick(history);
  }

  lemma SameEntry<S>(history: seq<Entry<S>>, maxSize: int, delay: nat, i: int, j: int)
    requires history != [] && maxSize >= 1 && (delay < maxSize || |history| <= maxSize)
    requires i == Nearest(|Window(history, maxSize)| - 1 - delay, |Window(history, maxSize)|)
    requires j == Nearest(|history| - 1 - delay, |history|)
    ensures 0 <= i < |Window(history, maxSize)| && 0 <= j < |history| && Window(history, maxSize)[i] == history[j]
  {
  }

  /** The entry the bounded buffer answers with, as an entry of the full history. */
  lemma DelayedEntry<S>(history: seq<Entry<S>>, maxSize: int, delay: nat)
    requires history != [] && Consecutive(history) && maxSize >= 1
    requires delay < maxSize || |history| <= maxSize
    ensures var w, target := Window(history, maxSize), history[|history| - 1].tick - delay;
            && w != []
            && w[LookupIndex(w, target)] == history[LookupIndex(history, target)]
            && history[LookupIndex(history, target)].tick == if target <= history[0].tick then history[0].tick else target
  {
    var w, target := Window(history, maxSize), history[|history| - 1].tick - delay;
    DelayedIndex(history, maxSize, delay);
    SameEntry(history, maxSize, delay, LookupIndex(w, target), LookupIndex(history, target));
  }

  lemma DelayTooLong<S>(history: seq<Entry<S>>, maxSize: int, delay: nat)
    requires history != [] && Consecutive(history) && 1 <= maxSize <= delay && maxSize < |history|
    ensures var w, target := Window(history, maxSize), history[|history| - 1].tick - delay;
            w != [] && w[LookupIndex(w, target)].tick > history[LookupIndex(history, target)].tick
  {
    HistoryIndex(history, history[|history| - 1], delay);
    WindowIndex(history, history[|history| - 1], maxSize, delay);
  }

  /** The bounded buffer answers like the full history for as long as the delay fits
      in it; once the match outgrows a buffer that is too short, it never does. */
  lemma DelayedStateIsExact<S>(history: seq<Entry<S>>, maxSize: int, delay: nat)
    requires history != [] && Consecutive(history) && maxSize >= 1
    ensures var w, target := Window(history, maxSize), history[|history| - 1].tick - delay;
            && w != []
            && (w[LookupIndex(w, target)] == history[LookupIndex(history, target)]
                <==> delay < maxSize || |history| <= maxSize)
  {
    if delay < maxSize || |history| <= maxSize {
      DelayedEntry(history, maxSize, delay);
    } else {
      DelayTooLong(history, maxSize, delay);
    }
  }

  /** The tick shown after n consecutive entries, the first of them at tick `first`. */
  function ShownTick(first: int, n: nat, maxSize: nat, delay: nat): int {
    var size := if n <= maxSize then n else maxSize;
    first + n - size + Nearest(size - 1 - delay, size)
  }

  lemma ShownTickAdvances(first: int, n: nat, maxSize: nat, delay: nat)
    requires n >= 1 && maxSize >= 1
    ensures ShownTick(first, n, maxSize, delay) <= ShownTick(first, n + 1, maxSize, delay)
            <= ShownTick(first, n, maxSize, delay) + 1
  {
  }

  lemma TickShown<S>(history: seq<Entry<S>>, last: Entry<S>, maxSize: int, delay: nat)
    requires history != [] && Consecutive(history) && maxSize >= 1 && last == history[|history| - 1]
    ensures var w := Window(history, maxSize);
            w != [] && w[LookupIndex(w, last.tick - delay)].tick == ShownTick(history[0].tick, |history|, maxSize, delay)
  {
    WindowIndex(history, last, maxSize, delay);
  }

  lemma ConsecutivePrefix<S>(history: seq<Entry<S>>, next: Entry<S>)
    requires history != [] && Consecutive(history + [next])
    ensures Consecutive(history)
  {
    forall k | 0 <= k < |history| ensures history[k].tick == history[0].tick + k {
      assert (history + [next])[k] == history[k];
    }
  }

  /** Over a run, what spectators see never moves back in time. */
  lemma NeverGoesBack<S>(history: seq<Entry<S>>, next: Entry<S>, maxSize: int, delay: nat)
    requires history != [] && Consecutive(history + [next]) && maxSize >= 1
    ensures var before, after := Window(history, maxSize), Window(history + [next], maxSize);
            && before != [] && after != []
            && before[LookupIndex(before, history[|history| - 1].tick - delay)].tick
               <= after[LookupIndex(after, next.tick - delay)].tick
               <= before[LookupIndex(before, history[|history| - 1].tick - delay)].tick + 1
  {
    ConsecutivePrefix(history, next);
    TickShown(history, history[|history| - 1], maxSize, delay);
    TickShown(history + [next], next, maxSize, delay);
    ShownTickAdvances(history[0].tick, |history|, maxSize, delay);
  }
}
