// What the grouping loop computes: the simple left-to-right greedy over the
// Elo-sorted queue, exactly when no rollback meets a duplicated request; and what
// that greedy guarantees.
module Grouping {
  import opened Matching

  function Interval(lo: nat, hi: nat): (r: seq<nat>)
    requires lo <= hi
    ensures |r| == hi - lo && forall k :: 0 <= k < |r| ==> r[k] == lo + k
  {
    seq(hi - lo, k requires 0 <= k < hi - lo => lo + k)
  }

  function Span(lo: nat, hi: nat): (r: set<nat>)
    ensures forall k: nat :: k in r <==> lo <= k < hi
  {
    if lo >= hi then {} else Span(lo, hi - 1) + {hi - 1}
  }

  /** End of the run of requests after i that anchor i accepts, capped by the lobby size. */
  function Extent(s: seq<Request>, rules: Rules, i: nat, j: nat): (e: nat)
    requires i < j <= |s|
    ensures j <= e <= |s|
    ensures j - i <= rules.max ==> e - i <= rules.max
    ensures forall k :: j <= k < e ==> InRange(rules, s[i], s[k])
    ensures e < |s| && e - i < rules.max ==> !InRange(rules, s[i], s[e])
    decreases |s| - j
  {
    if j < |s| && j - i < rules.max && InRange(rules, s[i], s[j]) then Extent(s, rules, i, j + 1) else j
  }

  function WithRun(st: Scan, i: nat, e: nat): Scan
    requires i <= e
  {
    Scan(st.used + Span(i, e), st.lobbies + [Interval(i, e)])
  }

  /** The reference: take the run after each anchor as a lobby when it is long enough. */
  function GreedyFrom(s: seq<Request>, rules: Rules, i: nat, st: Scan): Scan
    decreases |s| - i
  {
    if i >= |s| then st
    else
      var e := Extent(s, rules, i, i + 1);
      if e - i >= rules.min then GreedyFrom(s, rules, e, WithRun(st, i, e))
      else GreedyFrom(s, rules, i + 1, st)
  }

  function Greedy(s: seq<Request>, rules: Rules): Scan {
    GreedyFrom(s, rules, 0, Scan({}, []))
  }

  /** No equal request stands before position j. */
  ghost predicate IsFirst(s: seq<Request>, j: nat)
    requires j < |s|
  {
    s[j] !in s[..j]
  }

  /** No anchor whose run is too short has, in that run, a request equal to an earlier
      one: the rollback of list.index then releases exactly what was claimed. */
  ghost predicate CleanFrom(s: seq<Request>, rules: Rules, i: nat)
    decreases |s| - i
  {
    i < |s| ==>
      var e := Extent(s, rules, i, i + 1);
      if e - i >= rules.min then CleanFrom(s, rules, e)
      else (forall j :: i < j < e ==> IsFirst(s, j)) && CleanFrom(s, rules, i + 1)
  }

  ghost predicate Clean(s: seq<Request>, rules: Rules) {
    CleanFrom(s, rules, 0)
  }

  // --------------------------------------------------- the inner loop takes a run

  ghost predicate FreeFrom(used: set<nat>, i: nat) {
    forall k <- used :: k < i
  }

  lemma {:induction false} CollectNothing(s: seq<Request>, rules: Rules, i: nat, j: nat, used: set<nat>, lobby: seq<nat>)
    requires i < |s| && forall k :: j <= k < |s| ==> !InRange(rules, s[i], s[k])
    ensures Collect(s, rules, i, j, used, lobby) == (lobby, used)
    decreases |s| - j
  {
    if j < |s| {
      CollectNothing(s, rules, i, j + 1, used, lobby);
    }
  }

  lemma {:induction false} CollectIsRun(s: seq<Request>, rules: Rules, i: nat, j: nat, used: set<nat>)
    requires Sorted(s) && i < j <= |s| && j - i < rules.max && FreeFrom(used, j)
    ensures var e := Extent(s, rules, i, j);
            Collect(s, rules, i, j, used, Interval(i, j)) == (Interval(i, e), used + Span(j, e))
    decreases |s| - j
  {
    var e := Extent(s, rules, i, j);
    if j < |s| && InRange(rules, s[i], s[j]) {
      assert j !in used;
      assert Interval(i, j) + [j] == Interval(i, j + 1);
      assert used + {j} + Span(j + 1, e) == used + Span(j, e);
      if j + 1 - i < rules.max {
        CollectIsRun(s, rules, i, j + 1, used + {j});
      } else {
        assert Span(j, j + 1) == {j};
      }
    } else {
      CollectNothing(s, rules, i, j, used, Interval(i, j));
      assert used + Span(j, e) == used;
    }
  }

  lemma SpanFront(used: set<nat>, i: nat, e: nat)
    requires i < e
    ensures used + {i} + Span(i + 1, e) == used + Span(i, e)
  {
  }

  lemma SpanUndone(used: set<nat>, i: nat, e: nat)
    requires i < e && FreeFrom(used, i)
    ensures used + Span(i, e) - {i} - Span(i + 1, e) == used
  {
  }

  lemma AnchorTakesRun(s: seq<Request>, rules: Rules, i: nat, st: Scan)
    requires Sorted(s) && rules.Valid() && i < |s| && FreeFrom(st.used, i)
    ensures var e := Extent(s, rules, i, i + 1);
            Collect(s, rules, i, i + 1, st.used + {i}, [i]) == (Interval(i, e), st.used + Span(i, e))
  {
    CollectIsRun(s, rules, i, i + 1, st.used + {i});
    assert Interval(i, i + 1) == [i];
    SpanFront(st.used, i, Extent(s, rules, i, i + 1));
  }

  lemma {:induction false} SkipUsed(s: seq<Request>, rules: Rules, i: nat, e: nat, st: Scan)
    requires i <= e <= |s| && Span(i, e) <= st.used
    ensures ScanFrom(s, rules, i, st) == ScanFrom(s, rules, e, st)
    decreases e - i
  {
    if i < e {
      assert i in Span(i, e);
      SkipUsed(s, rules, i + 1, e, st);
    }
  }

  // ----------------------------------------------------------- clean rollbacks

  lemma ReleaseOneMore(s: seq<Request>, used: set<nat>, members: seq<nat>, j: nat)
    requires InBounds(members, |s|) && j < |s| && IsFirst(s, j)
    ensures InBounds(members + [j], |s|)
    ensures Release(s, used, members + [j]) == Release(s, used, members) - {j}
  {
    FirstOccurrence(s, j);
    assert (members + [j])[..|members|] == members;
  }

  lemma LastOfRun(used: set<nat>, lo: nat, hi: nat)
    requires lo < hi
    ensures Interval(lo, hi) == Interval(lo, hi - 1) + [hi - 1]
    ensures used - Span(lo, hi) == used - Span(lo, hi - 1) - {hi - 1}
  {
  }

  lemma {:induction false} ReleaseUnique(s: seq<Request>, used: set<nat>, lo: nat, hi: nat)
    requires lo <= hi <= |s| && forall j :: lo <= j < hi ==> IsFirst(s, j)
    ensures Release(s, used, Interval(lo, hi)) == used - Span(lo, hi)
    decreases hi
  {
    if lo < hi {
      ReleaseUnique(s, used, lo, hi - 1);
      ReleaseOneMore(s, used, Interval(lo, hi - 1), hi - 1);
      LastOfRun(used, lo, hi);
    } else {
      assert Span(lo, hi) == {};
    }
  }

  lemma FirstOccurrence(s: seq<Request>, j: nat)
    requires j < |s|
    ensures FirstIndex(s, s[j]) == j <==> IsFirst(s, j)
  {
  }

  lemma AnchorForms(s: seq<Request>, rules: Rules, i: nat, st: Scan)
    requires Sorted(s) && rules.Valid() && i < |s| && FreeFrom(st.used, i)
    requires Extent(s, rules, i, i + 1) - i >= rules.min
    ensures var e := Extent(s, rules, i, i + 1);
            ScanFrom(s, rules, i, st) == ScanFrom(s, rules, e, WithRun(st, i, e))
  {
    var e := Extent(s, rules, i, i + 1);
    AnchorTakesRun(s, rules, i, st);
    assert Anchor(s, rules, i, st) == WithRun(st, i, e);
    SkipUsed(s, rules, i + 1, e, WithRun(st, i, e));
  }

  /** An anchor whose run is too short, and the rollback of its run. */
  lemma RolledBack(s: seq<Request>, rules: Rules, i: nat, st: Scan)
    requires Sorted(s) && rules.Valid() && i < |s| && FreeFrom(st.used, i)
    requires Extent(s, rules, i, i + 1) - i < rules.min
    ensures var e := Extent(s, rules, i, i + 1);
            && InBounds(Interval(i + 1, e), |s|)
            && Anchor(s, rules, i, st) == Scan(Release(s, st.used + Span(i, e) - {i}, Interval(i + 1, e)), st.lobbies)
  {
    AnchorTakesRun(s, rules, i, st);
    RollsBackRun(s, rules, i, st, Extent(s, rules, i, i + 1));
  }

  lemma RollsBackRun(s: seq<Request>, rules: Rules, i: nat, st: Scan, e: nat)
    requires i < e <= |s| && e - i < rules.min && i !in st.used
    requires Collect(s, rules, i, i + 1, st.used + {i}, [i]) == (Interval(i, e), st.used + Span(i, e))
    ensures InBounds(Interval(i + 1, e), |s|)
    ensures Anchor(s, rules, i, st) == Scan(Release(s, st.used + Span(i, e) - {i}, Interval(i + 1, e)), st.lobbies)
  {
    assert Interval(i, e)[1..] == Interval(i + 1, e);
  }

  lemma AnchorFails(s: seq<Request>, rules: Rules, i: nat, st: Scan)
    requires Sorted(s) && rules.Valid() && i < |s| && FreeFrom(st.used, i)
    requires var e := Extent(s, rules, i, i + 1);
             e - i < rules.min && forall j :: i < j < e ==> IsFirst(s, j)
    ensures ScanFrom(s, rules, i, st) == ScanFrom(s, rules, i + 1, st)
  {
    var e := Extent(s, rules, i, i + 1);
    RolledBack(s, rules, i, st);
    ReleaseUnique(s, st.used + Span(i, e) - {i}, i + 1, e);
    SpanUndone(st.used, i, e);
    assert Anchor(s, rules, i, st) == st;
  }

  lemma GreedyNext(s: seq<Request>, rules: Rules, i: nat, st: Scan, e: nat)
    requires i < |s| && e == Extent(s, rules, i, i + 1)
    ensures GreedyFrom(s, rules, i, st)
            == if e - i >= rules.min then GreedyFrom(s, rules, e, WithRun(st, i, e)) else GreedyFrom(s, rules, i + 1, st)
  {
  }

  lemma {:induction false} CleanScanIsGreedy(s: seq<Request>, rules: Rules, i: nat, st: Scan)
    requires Sorted(s) && rules.Valid() && i <= |s| && FreeFrom(st.used, i) && CleanFrom(s, rules, i)
    ensures ScanFrom(s, rules, i, st) == GreedyFrom(s, rules, i, st)
    decreases |s| - i
  {
    if i < |s| {
      var e := Extent(s, rules, i, i + 1);
      GreedyNext(s, rules, i, st, e);
      if e - i >= rules.min {
        AnchorForms(s, rules, i, st);
        CleanScanIsGreedy(s, rules, e, WithRun(st, i, e));
      } else {
        AnchorFails(s, rules, i, st);
        CleanScanIsGreedy(s, rules, i + 1, st);
      }
    }
  }

  // ------------------------------------------- and only clean rollbacks are greedy

  ghost predicate InSome(lobbies: seq<seq<nat>>, j: nat) {
    exists k :: 0 <= k < |lobbies| && j in lobbies[k]
  }

  lemma InSomeSnoc(lobbies: seq<seq<nat>>, lobby: seq<nat>, j: nat)
    ensures InSome(lobbies + [lobby], j) <==> InSome(lobbies, j) || j in lobby
  {
    var all := lobbies + [lobby];
    assert all[|lobbies|] == lobby;
    assert forall k :: 0 <= k < |lobbies| ==> all[k] == lobbies[k];
  }

  lemma {:induction false} ReleaseKeepsDuplicate(s: seq<Request>, used: set<nat>, members: seq<nat>, j: nat)
    requires InBounds(members, |s|) && j < |s| && !IsFirst(s, j) && j in used
    ensures j in Release(s, used, members)
  {
    if members != [] {
      ReleaseKeepsDuplicate(s, used, members[..|members| - 1], j);
      FirstOccurrence(s, j);
    }
  }

  /** A duplicate left marked by a failed rollback never comes back: it is neither
      matched nor kept. */
  lemma {:induction false} DuplicateIsStuck(s: seq<Request>, rules: Rules, i: nat, st: Scan, j: nat)
    requires j < |s| && !IsFirst(s, j) && j in st.used && !InSome(st.lobbies, j)
    ensures var end := ScanFrom(s, rules, i, st);
            j in end.used && !InSome(end.lobbies, j)
    decreases |s| - i
  {
    if i < |s| {
      if i !in st.used {
        CollectBounds(s, rules, i, i + 1, st.used + {i}, [i]);
        var (lobby, used) := Collect(s, rules, i, i + 1, st.used + {i}, [i]);
        if |lobby| >= rules.min {
          assert lobby == [i] + lobby[1..];
          InSomeSnoc(st.lobbies, lobby, j);
        } else {
          ReleaseKeepsDuplicate(s, used - {i}, lobby[1..], j);
        }
      }
      DuplicateIsStuck(s, rules, i + 1, Anchor(s, rules, i, st), j);
    }
  }

  ghost predicate LobbiesBelow(lobbies: seq<seq<nat>>, i: nat) {
    forall j: nat :: InSome(lobbies, j) ==> j < i
  }

  lemma DuplicateStaysMarked(s: seq<Request>, rules: Rules, i: nat, st: Scan, j: nat)
    requires Sorted(s) && rules.Valid() && i < |s| && FreeFrom(st.used, i) && LobbiesBelow(st.lobbies, i)
    requires Extent(s, rules, i, i + 1) - i < rules.min
    requires i < j < Extent(s, rules, i, i + 1) && !IsFirst(s, j)
    ensures j in Anchor(s, rules, i, st).used && !InSome(Anchor(s, rules, i, st).lobbies, j)
  {
    var e := Extent(s, rules, i, i + 1);
    RolledBack(s, rules, i, st);
    ReleaseKeepsDuplicate(s, st.used + Span(i, e) - {i}, Interval(i + 1, e), j);
  }

  /** The state after a rolled back anchor whose run holds the duplicate j. */
  lemma UncleanAnchorLosesRequest(s: seq<Request>, rules: Rules, i: nat, st: Scan, j: nat)
    requires Sorted(s) && rules.Valid() && i < |s| && FreeFrom(st.used, i) && LobbiesBelow(st.lobbies, i)
    requires Extent(s, rules, i, i + 1) - i < rules.min
    requires i < j < Extent(s, rules, i, i + 1) && !IsFirst(s, j)
    ensures var end := ScanFrom(s, rules, i, st);
            j in end.used && !InSome(end.lobbies, j)
  {
    DuplicateStaysMarked(s, rules, i, st, j);
    DuplicateIsStuck(s, rules, i + 1, Anchor(s, rules, i, st), j);
  }

  lemma WithRunStaysBelow(st: Scan, i: nat, e: nat)
    requires i <= e && FreeFrom(st.used, i) && LobbiesBelow(st.lobbies, i)
    ensures FreeFrom(WithRun(st, i, e).used, e) && LobbiesBelow(WithRun(st, i, e).lobbies, e)
  {
    forall m: nat | InSome(WithRun(st, i, e).lobbies, m) ensures m < e { InSomeSnoc(st.lobbies, Interval(i, e), m); }
  }

  lemma {:induction false} UncleanScanLosesRequest(s: seq<Request>, rules: Rules, i: nat, st: Scan) returns (j: nat)
    requires Sorted(s) && rules.Valid() && i <= |s| && FreeFrom(st.used, i) && LobbiesBelow(st.lobbies, i)
    requires !CleanFrom(s, rules, i)
    ensures j < |s| && !IsFirst(s, j)
    ensures var end := ScanFrom(s, rules, i, st);
            j in end.used && !InSome(end.lobbies, j)
    decreases |s| - i
  {
    var e := Extent(s, rules, i, i + 1);
    if e - i >= rules.min {
      AnchorForms(s, rules, i, st);
      WithRunStaysBelow(st, i, e);
      j := UncleanScanLosesRequest(s, rules, e, WithRun(st, i, e));
    } else if forall m :: i < m < e ==> IsFirst(s, m) {
      AnchorFails(s, rules, i, st);
      j := UncleanScanLosesRequest(s, rules, i + 1, st);
    } else {
      j :| i < j < e && !IsFirst(s, j);
      UncleanAnchorLosesRequest(s, rules, i, st, j);
    }
  }

  // ------------------------------------------------------ what the greedy guarantees

  /** A contiguous run of admissible size, all within the range of its first member, and
      not to be continued: it is full, or the queue ends, or the next is out of range. */
  ghost predicate IsLobby(s: seq<Request>, rules: Rules, lobby: seq<nat>) {
    && rules.min <= |lobby| <= rules.max
    && lobby != []
    && lobby[0] + |lobby| <= |s|
    && lobby == Interval(lobby[0], lobby[0] + |lobby|)
    && (forall k :: lobby[0] < k < lobby[0] + |lobby| ==> InRange(rules, s[lobby[0]], s[k]))
    && (|lobby| == rules.max || lobby[0] + |lobby| == |s| || !InRange(rules, s[lobby[0]], s[lobby[0] + |lobby|]))
  }

  ghost predicate Groups(s: seq<Request>, rules: Rules, i: nat, st: Scan)
    requires i <= |s|
  {
    && (forall k: nat :: k in st.used <==> InSome(st.lobbies, k))
    && FreeFrom(st.used, i)
    && (forall k :: 0 <= k < |st.lobbies| ==> IsLobby(s, rules, st.lobbies[k]))
    && (forall k, m :: 0 <= k < m < |st.lobbies| ==> st.lobbies[k][0] + |st.lobbies[k]| <= st.lobbies[m][0])
    && (forall x: nat :: x < i && x !in st.used ==> Extent(s, rules, x, x + 1) - x < rules.min)
  }

  lemma LobbyEndsBefore(s: seq<Request>, rules: Rules, i: nat, st: Scan, k: nat)
    requires i <= |s| && Groups(s, rules, i, st) && k < |st.lobbies|
    ensures st.lobbies[k][0] + |st.lobbies[k]| <= i
  {
    var lobby := st.lobbies[k];
    assert IsLobby(s, rules, lobby);
    var last := Interval(lobby[0], lobby[0] + |lobby|)[|lobby| - 1];
    assert last in lobby;
    assert InSome(st.lobbies, last);
  }

  lemma InInterval(lo: nat, hi: nat, k: nat)
    requires lo <= hi
    ensures k in Interval(lo, hi) <==> lo <= k < hi
  {
    if lo <= k < hi {
      assert Interval(lo, hi)[k - lo] == k;
    }
  }

  lemma RunIsLobby(s: seq<Request>, rules: Rules, i: nat, e: nat)
    requires rules.Valid() && i < |s| && e == Extent(s, rules, i, i + 1) && e - i >= rules.min
    ensures IsLobby(s, rules, Interval(i, e))
  {
    assert Interval(i, e)[0] == i;
  }

  lemma TakeRunKeepsGroups(s: seq<Request>, rules: Rules, i: nat, st: Scan)
    requires rules.Valid() && i < |s| && Groups(s, rules, i, st)
    requires Extent(s, rules, i, i + 1) - i >= rules.min
    ensures var e := Extent(s, rules, i, i + 1);
            Groups(s, rules, e, WithRun(st, i, e))
  {
    var e := Extent(s, rules, i, i + 1);
    var run := Interval(i, e);
    var st' := WithRun(st, i, e);
    forall k: nat ensures k in st'.used <==> InSome(st'.lobbies, k) {
      InSomeSnoc(st.lobbies, run, k);
      InInterval(i, e, k);
    }
    RunIsLobby(s, rules, i, e);
    forall k | 0 <= k < |st.lobbies| ensures st.lobbies[k][0] + |st.lobbies[k]| <= i {
      LobbyEndsBefore(s, rules, i, st, k);
    }
  }

  lemma {:induction false} GreedyGroups(s: seq<Request>, rules: Rules, i: nat, st: Scan)
    requires rules.Valid() && i <= |s| && Groups(s, rules, i, st)
    ensures Groups(s, rules, |s|, GreedyFrom(s, rules, i, st))
    decreases |s| - i
  {
    if i < |s| {
      var e := Extent(s, rules, i, i + 1);
      if e - i >= rules.min {
        TakeRunKeepsGroups(s, rules, i, st);
        GreedyGroups(s, rules, e, WithRun(st, i, e));
      } else {
        GreedyGroups(s, rules, i + 1, st);
      }
    }
  }

  /** The loop computes the simple greedy grouping if and only if its rollbacks are clean. */
  lemma ScanIsGreedyIffClean(s: seq<Request>, rules: Rules)
    requires Sorted(s) && rules.Valid()
    ensures FullScan(s, rules) == Greedy(s, rules) <==> Clean(s, rules)
    ensures !Clean(s, rules) ==>
              exists j: nat :: j < |s| && j in FullScan(s, rules).used && !InSome(FullScan(s, rules).lobbies, j)
  {
    if Clean(s, rules) {
      CleanScanIsGreedy(s, rules, 0, Scan({}, []));
    } else {
      var j := UncleanScanLosesRequest(s, rules, 0, Scan({}, []));
      GreedyGroups(s, rules, 0, Scan({}, []));
    }
  }

  ghost predicate Distinct(s: seq<Request>) {
    forall i, j :: 0 <= i < j < |s| ==> s[i] != s[j]
  }

  /** Lobbies from two players on, or pairwise distinct requests, keep every rollback clean. */
  lemma {:induction false} CleanWhenPairsOrDistinct(s: seq<Request>, rules: Rules, i: nat)
    requires rules.Valid() && (rules.min == 2 || Distinct(s))
    ensures CleanFrom(s, rules, i)
    decreases |s| - i
  {
    if i < |s| {
      CleanWhenPairsOrDistinct(s, rules, Extent(s, rules, i, i + 1));
      CleanWhenPairsOrDistinct(s, rules, i + 1);
    }
  }

  lemma PairRunsTogether(rules: Rules, s: seq<Request>)
    requires rules.Valid() && |s| == 2 && s[0] == s[1] && rules.range(s[0]) >= 0
    ensures Sorted(s) && Extent(s, rules, 0, 1) == 2 && !IsFirst(s, 1)
  {
    assert s[..1][0] == s[1];
  }

  /** With lobbies of at least three players, the second of two equal requests that are
      alone in the queue vanishes: it is neither matched nor kept. */
  lemma DuplicateRequestVanishes(rules: Rules, s: seq<Request>)
    requires rules.Valid() && rules.min >= 3
    requires |s| == 2 && s[0] == s[1] && rules.range(s[0]) >= 0
    ensures SortByElo(s) == s
    ensures var end := FullScan(s, rules);
            1 in end.used && !InSome(end.lobbies, 1)
  {
    SortedIsFixed(s);
    PairRunsTogether(rules, s);
    UncleanAnchorLosesRequest(s, rules, 0, Scan({}, []), 1);
  }
}
