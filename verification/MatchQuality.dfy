// What players get from the grouping: nobody is lost, no possible lobby is left
// behind, a second pass changes nothing, and lobbies stay close in rating.
module MatchQuality {
  import opened Matching
  import opened Grouping

  // ------------------------------------------------------------- nobody is lost

  function Members(lobbies: seq<seq<Request>>): multiset<Request> {
    if lobbies == [] then multiset{}
    else Members(lobbies[..|lobbies| - 1]) + multiset(lobbies[|lobbies| - 1])
  }

  lemma MembersSnoc(lobbies: seq<seq<Request>>, lobby: seq<Request>)
    ensures Members(lobbies + [lobby]) == Members(lobbies) + multiset(lobby)
  {
  }

  lemma UnusedSkipsRun(used: set<nat>, i: nat, e: nat)
    requires i <= e && FreeFrom(used, i)
    ensures Unused(used + Span(i, e), e) == Unused(used, i)
  {
    UnusedSkips(used + Span(i, e), used, i, e);
  }

  lemma {:induction false} UnusedSkips(used: set<nat>, before: set<nat>, i: nat, e: nat)
    requires i <= e && forall k: nat :: k < i ==> (k in used <==> k in before)
    requires forall k: nat :: i <= k < e ==> k in used
    ensures Unused(used, e) == Unused(before, i)
  {
    if i < e {
      UnusedSkips(used, before, i, e - 1);
    } else {
      UnusedDependsBelow(used, before, i);
    }
  }

  lemma {:induction false} UnusedDependsBelow(used: set<nat>, used': set<nat>, n: nat)
    requires forall k: nat :: k < n ==> (k in used <==> k in used')
    ensures Unused(used, n) == Unused(used', n)
  {
    if n > 0 {
      UnusedDependsBelow(used, used', n - 1);
    }
  }

  /** What is in lobbies plus what is left, among the first i requests. */
  ghost function Accounted(s: seq<Request>, st: Scan, i: nat): multiset<Request>
    requires i <= |s| && Within(st.lobbies, |s|)
  {
    Members(PickAll(s, st.lobbies)) + multiset(Pick(s, Unused(st.used, i)))
  }

  lemma RunAccounted(s: seq<Request>, st: Scan, i: nat, e: nat)
    requires i <= e <= |s| && Within(st.lobbies, |s|) && FreeFrom(st.used, i)
    ensures Within(WithRun(st, i, e).lobbies, |s|)
    ensures FreeFrom(WithRun(st, i, e).used, e)
    ensures Accounted(s, st, i) == multiset(s[..i]) ==> Accounted(s, WithRun(st, i, e), e) == multiset(s[..e])
  {
    assert s[..e] == s[..i] + s[i..e];
    PickAllSnoc(s, st.lobbies, Interval(i, e));
    MembersSnoc(PickAll(s, st.lobbies), Pick(s, Interval(i, e)));
    assert Pick(s, Interval(i, e)) == s[i..e];
    UnusedSkipsRun(st.used, i, e);
  }

  lemma LeftAccounted(s: seq<Request>, st: Scan, i: nat)
    requires i < |s| && Within(st.lobbies, |s|) && FreeFrom(st.used, i)
    ensures Accounted(s, st, i) == multiset(s[..i]) ==> Accounted(s, st, i + 1) == multiset(s[..i + 1])
  {
    assert s[..i + 1] == s[..i] + [s[i]];
    PickOneMore(s, st.used, i);
  }

  lemma PickOneMore(s: seq<Request>, used: set<nat>, i: nat)
    requires i < |s| && i !in used
    ensures Pick(s, Unused(used, i + 1)) == Pick(s, Unused(used, i)) + [s[i]]
  {
  }

  lemma {:induction false} GreedyLosesNobody(s: seq<Request>, rules: Rules, i: nat, st: Scan)
    requires i <= |s| && Within(st.lobbies, |s|) && FreeFrom(st.used, i)
    requires Accounted(s, st, i) == multiset(s[..i])
    ensures var end := GreedyFrom(s, rules, i, st);
            Within(end.lobbies, |s|) && Accounted(s, end, |s|) == multiset(s)
    decreases |s| - i
  {
    if i < |s| {
      var e := Extent(s, rules, i, i + 1);
      if e - i >= rules.min {
        RunAccounted(s, st, i, e);
        GreedyLosesNobody(s, rules, e, WithRun(st, i, e));
      } else {
        LeftAccounted(s, st, i);
        GreedyLosesNobody(s, rules, i + 1, st);
      }
    } else {
      assert s[..i] == s;
    }
  }

  /** After a clean tick every request of the old queue is in exactly one lobby or
      still pending: as positions each in at most one place, as requests none lost or copied. */
  lemma CleanTickPartitions(queue: seq<Request>, rules: Rules)
    requires rules.Valid() && Clean(SortByElo(queue), rules)
    ensures var s := SortByElo(queue);
            var end := FullScan(s, rules);
            && Groups(s, rules, |s|, end)
            && Within(end.lobbies, |s|)
            && Members(PickAll(s, end.lobbies)) + multiset(Pick(s, Unused(end.used, |s|))) == multiset(queue)
  {
    var s := SortByElo(queue);
    ScanIsGreedyIffClean(s, rules);
    GreedyGroups(s, rules, 0, Scan({}, []));
    assert s[..0] == [] && Unused({}, 0) == [];
    GreedyLosesNobody(s, rules, 0, Scan({}, []));
  }

  // -------------------------------------------------- no possible lobby is left

  lemma BeyondExtent(s: seq<Request>, rules: Rules, i: nat, k: nat)
    requires Sorted(s) && i < k < |s| && Extent(s, rules, i, i + 1) - i < rules.max
    ensures InRange(rules, s[i], s[k]) <==> k < Extent(s, rules, i, i + 1)
  {
  }

  /** Whoever is left over had fewer than `min` requests, itself included, at or above
      it within its own range: the min-th one from it on is already too far. */
  lemma LeftOverCouldNotGroup(s: seq<Request>, rules: Rules, x: nat)
    requires Sorted(s) && rules.Valid() && Clean(s, rules)
    requires x < |s| && x !in FullScan(s, rules).used && x + rules.min - 1 < |s|
    ensures forall k :: x + rules.min - 1 <= k < |s| ==> s[k].elo - s[x].elo > rules.range(s[x])
  {
    ScanIsGreedyIffClean(s, rules);
    GreedyGroups(s, rules, 0, Scan({}, []));
    forall k | x + rules.min - 1 <= k < |s| ensures s[k].elo - s[x].elo > rules.range(s[x]) {
      BeyondExtent(s, rules, x, k);
    }
  }

  /** `a` and `b` are no further apart in rating than `a` accepts by now. */
  ghost predicate Accepts(cfg: Config, now: real, a: Request, b: Request)
    requires cfg.Valid()
  {
    -RangeAllowed(cfg, now, a) <= b.elo - a.elo <= RangeAllowed(cfg, now, a)
  }

  /** A lobby of the sorted queue s, by the settings alone: a run from its anchor, of at least
      `lobbyMin` and at most `lobbyMax` requests that the anchor accepts; one that is not full
      ends the queue, or the next request is one that the anchor does not accept. */
  ghost predicate LobbyBySettings(cfg: Config, s: seq<Request>, now: real, lobby: seq<Request>, from: nat)
    requires cfg.Valid()
  {
    var to := from + |lobby|;
    && cfg.lobbyMin <= |lobby| <= cfg.lobbyMax && to <= |s| && lobby == s[from..to]
    && (forall k :: from <= k < to ==> k == from || Accepts(cfg, now, s[from], s[k]))
    && (|lobby| == cfg.lobbyMax || to == |s| || !Accepts(cfg, now, s[from], s[to]))
  }

  ghost predicate FormedBySettings(cfg: Config, s: seq<Request>, now: real, lobby: seq<Request>)
    requires cfg.Valid()
  {
    exists from: nat :: LobbyBySettings(cfg, s, now, lobby, from)
  }

  lemma InRangeIsAccepted(cfg: Config, now: real, a: Request, b: Request)
    requires cfg.Valid()
    ensures InRange(RulesAt(cfg, now), a, b) <==> Accepts(cfg, now, a, b)
  {
  }

  lemma LobbyIsBySettings(cfg: Config, s: seq<Request>, now: real, lobby: seq<nat>)
    requires cfg.Valid() && IsLobby(s, RulesAt(cfg, now), lobby) && InBounds(lobby, |s|)
    ensures FormedBySettings(cfg, s, now, Pick(s, lobby))
  {
    var from, to := lobby[0], lobby[0] + |lobby|;
    assert Pick(s, lobby) == s[from..to];
    forall k | from < k < to ensures Accepts(cfg, now, s[from], s[k]) {
      InRangeIsAccepted(cfg, now, s[from], s[k]);
    }
    if to < |s| {
      InRangeIsAccepted(cfg, now, s[from], s[to]);
    }
    assert LobbyBySettings(cfg, s, now, Pick(s, lobby), from);
  }

  lemma {:induction false} PickAllAt(s: seq<Request>, lobbies: seq<seq<nat>>, k: nat)
    requires Within(lobbies, |s|) && k < |lobbies|
    ensures PickAll(s, lobbies)[k] == Pick(s, lobbies[k])
  {
    if k < |lobbies| - 1 {
      PickAllAt(s, lobbies[..|lobbies| - 1], k);
    }
  }

  /** What one grouping tick does, by the settings: every lobby is such a run, and whoever is
      left over accepts fewer than `lobbyMin` requests, itself included, at or above it. */
  lemma TickBySettings(cfg: Config, queue: seq<Request>, now: real)
    requires cfg.Valid() && Clean(SortByElo(queue), RulesAt(cfg, now))
    ensures var s := SortByElo(queue);
      var end := FullScan(s, RulesAt(cfg, now));
      && Within(end.lobbies, |s|)
      && (forall k :: 0 <= k < |end.lobbies| ==> FormedBySettings(cfg, s, now, PickAll(s, end.lobbies)[k]))
      && (forall x: nat :: x < |s| && x !in end.used && x + cfg.lobbyMin - 1 < |s| ==>
            !Accepts(cfg, now, s[x], s[x + cfg.lobbyMin - 1]))
  {
    var s, rules := SortByElo(queue), RulesAt(cfg, now);
    var end := FullScan(s, rules);
    CleanTickPartitions(queue, rules);
    forall k | 0 <= k < |end.lobbies| ensures FormedBySettings(cfg, s, now, PickAll(s, end.lobbies)[k]) {
      PickAllAt(s, end.lobbies, k);
      assert IsLobby(s, rules, end.lobbies[k]);
      LobbyIsBySettings(cfg, s, now, end.lobbies[k]);
    }
    forall x: nat | x < |s| && x !in end.used && x + cfg.lobbyMin - 1 < |s|
      ensures !Accepts(cfg, now, s[x], s[x + cfg.lobbyMin - 1])
    {
      LeftOverCouldNotGroup(s, rules, x);
    }
  }

  // --------------------------------------------------- a second pass changes nothing

  ghost predicate ShortAndClean(s: seq<Request>, rules: Rules, i: nat)
    requires i < |s|
  {
    var e := Extent(s, rules, i, i + 1);
    e - i < rules.min && forall j :: i < j < e ==> IsFirst(s, j)
  }

  ghost predicate LeftAreShortAndClean(s: seq<Request>, rules: Rules, used: set<nat>, i: nat)
    requires i <= |s|
  {
    forall x: nat :: x < i && x !in used ==> ShortAndClean(s, rules, x)
  }

  lemma RunKeepsLeftClean(s: seq<Request>, rules: Rules, st: Scan, i: nat, e: nat)
    requires i <= e <= |s| && LeftAreShortAndClean(s, rules, st.used, i)
    ensures LeftAreShortAndClean(s, rules, WithRun(st, i, e).used, e)
  {
  }

  lemma AnchorKeepsLeftClean(s: seq<Request>, rules: Rules, st: Scan, i: nat)
    requires i < |s| && LeftAreShortAndClean(s, rules, st.used, i) && ShortAndClean(s, rules, i)
    ensures LeftAreShortAndClean(s, rules, st.used, i + 1)
  {
  }

  lemma CleanNext(s: seq<Request>, rules: Rules, i: nat, e: nat)
    requires i < |s| && CleanFrom(s, rules, i) && e == Extent(s, rules, i, i + 1)
    ensures if e - i >= rules.min then CleanFrom(s, rules, e)
            else ShortAndClean(s, rules, i) && CleanFrom(s, rules, i + 1)
  {
  }

  lemma {:induction false} LeftOversWereClean(s: seq<Request>, rules: Rules, i: nat, st: Scan)
    requires i <= |s| && CleanFrom(s, rules, i) && LeftAreShortAndClean(s, rules, st.used, i)
    ensures LeftAreShortAndClean(s, rules, GreedyFrom(s, rules, i, st).used, |s|)
    decreases |s| - i
  {
    if i < |s| {
      var e := Extent(s, rules, i, i + 1);
      CleanNext(s, rules, i, e);
      GreedyNext(s, rules, i, st, e);
      if e - i >= rules.min {
        RunKeepsLeftClean(s, rules, st, i, e);
        LeftOversWereClean(s, rules, e, WithRun(st, i, e));
      } else {
        AnchorKeepsLeftClean(s, rules, st, i);
        LeftOversWereClean(s, rules, i + 1, st);
      }
    }
  }

  lemma {:induction false} GapsAddUp(left: seq<nat>, k: nat, m: nat)
    requires k <= m < |left| && forall a, b :: 0 <= a < b < |left| ==> left[a] < left[b]
    ensures left[m] - left[k] >= m - k
    decreases m
  {
    if k < m {
      GapsAddUp(left, k, m - 1);
    }
  }

  /** What is left of a queue offers each of its members no more than the queue did. */
  lemma LeftStaysShortAndClean(s: seq<Request>, rules: Rules, left: seq<nat>, k: nat)
    requires Sorted(s) && rules.Valid() && InBounds(left, |s|) && k < |left|
    requires forall a, b :: 0 <= a < b < |left| ==> left[a] < left[b]
    requires ShortAndClean(s, rules, left[k])
    ensures ShortAndClean(Pick(s, left), rules, k)
  {
    var t := Pick(s, left);
    var e, e' := Extent(s, rules, left[k], left[k] + 1), Extent(t, rules, k, k + 1);
    forall j | k < j < e' ensures left[j] < e && IsFirst(t, j) {
      assert InRange(rules, s[left[k]], s[left[j]]);
      BeyondExtent(s, rules, left[k], left[j]);
      assert IsFirst(s, left[j]);
      forall m | 0 <= m < j ensures t[m] != t[j] {
        assert s[..left[j]][left[m]] == s[left[m]];
      }
    }
    if e' - k >= rules.min {
      GapsAddUp(left, k, e' - 1);
    }
  }

  lemma ShortAnchorFails(s: seq<Request>, rules: Rules, i: nat)
    requires Sorted(s) && rules.Valid() && i < |s| && ShortAndClean(s, rules, i)
    ensures ScanFrom(s, rules, i, Scan({}, [])) == ScanFrom(s, rules, i + 1, Scan({}, []))
  {
    AnchorFails(s, rules, i, Scan({}, []));
  }

  lemma {:induction false} NothingToForm(s: seq<Request>, rules: Rules, i: nat)
    requires Sorted(s) && rules.Valid() && i <= |s|
    requires forall k :: 0 <= k < |s| ==> ShortAndClean(s, rules, k)
    ensures ScanFrom(s, rules, i, Scan({}, [])) == Scan({}, [])
    decreases |s| - i
  {
    if i < |s| {
      assert ShortAndClean(s, rules, i);
      ShortAnchorFails(s, rules, i);
      NothingToForm(s, rules, i + 1);
    }
  }

  lemma {:induction false} AllUnused(n: nat)
    ensures |Unused({}, n)| == n && forall k :: 0 <= k < n ==> Unused({}, n)[k] == k
  {
    if n > 0 {
      AllUnused(n - 1);
      assert Unused({}, n) == Unused({}, n - 1) + [n - 1];
    }
  }

  lemma ShortQueueIsStable(t: seq<Request>, rules: Rules)
    requires Sorted(t) && rules.Valid() && forall k :: 0 <= k < |t| ==> ShortAndClean(t, rules, k)
    ensures SortByElo(t) == t
    ensures FullScan(t, rules) == Scan({}, [])
    ensures Pick(t, Unused(FullScan(t, rules).used, |t|)) == t
  {
    SortedIsFixed(t);
    NothingToForm(t, rules, 0);
    AllUnused(|t|);
  }

  /** A second tick at the same instant forms no lobby and leaves the queue as it is. */
  lemma SecondTickChangesNothing(queue: seq<Request>, rules: Rules)
    requires rules.Valid() && Clean(SortByElo(queue), rules)
    ensures var s := SortByElo(queue);
            var t := Pick(s, Unused(FullScan(s, rules).used, |s|));
            && SortByElo(t) == t
            && FullScan(t, rules) == Scan({}, [])
            && Pick(t, Unused(FullScan(t, rules).used, |t|)) == t
  {
    var s := SortByElo(queue);
    ScanIsGreedyIffClean(s, rules);
    LeftOversWereClean(s, rules, 0, Scan({}, []));
    var left := Unused(FullScan(s, rules).used, |s|);
    var t := Pick(s, left);
    forall k | 0 <= k < |t| ensures ShortAndClean(t, rules, k) {
      assert left[k] in left;
      LeftStaysShortAndClean(s, rules, left, k);
    }
    ShortQueueIsStable(t, rules);
  }

  // ------------------------------------------------------- lobbies stay close in rating

  /** Every member after the first sits above it in the queue and within its range. */
  ghost predicate NearFirst(s: seq<Request>, rules: Rules, lobby: seq<nat>) {
    && lobby != [] && InBounds(lobby, |s|)
    && forall k :: 0 < k < |lobby| ==> lobby[0] < lobby[k] && InRange(rules, s[lobby[0]], s[lobby[k]])
  }

  lemma {:induction false} CollectedNearFirst(s: seq<Request>, rules: Rules, i: nat, j: nat, used: set<nat>, lobby: seq<nat>)
    requires i < j && i < |s| && NearFirst(s, rules, lobby) && lobby[0] == i
    ensures NearFirst(s, rules, Collect(s, rules, i, j, used, lobby).0)
    decreases |s| - j
  {
    if j < |s| {
      if j in used || !InRange(rules, s[i], s[j]) {
        CollectedNearFirst(s, rules, i, j + 1, used, lobby);
      } else if |lobby| + 1 < rules.max {
        CollectedNearFirst(s, rules, i, j + 1, used + {j}, lobby + [j]);
      }
    }
  }

  lemma {:induction false} ScannedNearFirst(s: seq<Request>, rules: Rules, i: nat, st: Scan)
    requires forall k :: 0 <= k < |st.lobbies| ==> NearFirst(s, rules, st.lobbies[k])
    ensures forall k :: 0 <= k < |ScanFrom(s, rules, i, st).lobbies| ==> NearFirst(s, rules, ScanFrom(s, rules, i, st).lobbies[k])
    decreases |s| - i
  {
    if i < |s| {
      if i !in st.used {
        CollectedNearFirst(s, rules, i, i + 1, st.used + {i}, [i]);
      }
      ScannedNearFirst(s, rules, i + 1, Anchor(s, rules, i, st));
    }
  }

  lemma SignOfFactor(u: real, w: real)
    requires w > 0.0
    ensures u * w >= 0.0 ==> u >= 0.0
    ensures u * w > 0.0 ==> u > 0.0
  {
    if u < 0.0 {
      assert -u * w > 0.0;
    }
  }

  lemma QuotientWithin(x: real, w: real, n: int)
    requires w > 0.0 && n as real * w <= x < (n + 1) as real * w
    ensures (x / w).Floor == n
  {
    var q := x / w;
    assert q * w == x;
    SignOfFactor(q - n as real, w);
    SignOfFactor((n + 1) as real - q, w);
  }

  /** A request that has waited n whole windows accepts the initial range plus n expansions. */
  lemma RangeAfterWindows(cfg: Config, now: real, r: Request, n: int)
    requires cfg.Valid()
    requires n as real * cfg.matchTimeout <= now - r.timestamp < (n + 1) as real * cfg.matchTimeout
    ensures RangeAllowed(cfg, now, r) == cfg.eloRangeInitial + n * cfg.eloRangeExpand
  {
    QuotientWithin(now - r.timestamp, cfg.matchTimeout, n);
    var windows := ((now - r.timestamp) / cfg.matchTimeout).Floor;
    assert windows == n;
  }

  lemma RangeWithinThreeWindows(cfg: Config, now: real, r: Request)
    requires cfg.Valid() && now - r.timestamp < 3.0 * cfg.matchTimeout
    ensures RangeAllowed(cfg, now, r) <= cfg.eloRangeInitial + 2 * cfg.eloRangeExpand
  {
  }

  /** Any two members of the lobby are rated at most `bound` apart. */
  ghost predicate SpreadAtMost(s: seq<Request>, lobby: seq<nat>, bound: int)
    requires InBounds(lobby, |s|)
  {
    forall a, b :: 0 <= a < |lobby| && 0 <= b < |lobby| ==> s[lobby[a]].elo - s[lobby[b]].elo <= bound
  }

  lemma SpreadFromFirst(s: seq<Request>, rules: Rules, lobby: seq<nat>, bound: nat)
    requires Sorted(s) && NearFirst(s, rules, lobby) && rules.range(s[lobby[0]]) <= bound
    ensures SpreadAtMost(s, lobby, bound)
  {
  }

  lemma ScanSpread(s: seq<Request>, rules: Rules, bound: nat)
    requires Sorted(s) && forall r <- s :: rules.range(r) <= bound
    ensures var lobbies := FullScan(s, rules).lobbies;
            Within(lobbies, |s|) && forall k :: 0 <= k < |lobbies| ==> SpreadAtMost(s, lobbies[k], bound)
  {
    ScannedNearFirst(s, rules, 0, Scan({}, []));
    var lobbies := FullScan(s, rules).lobbies;
    forall k | 0 <= k < |lobbies| ensures SpreadAtMost(s, lobbies[k], bound) {
      SpreadFromFirst(s, rules, lobbies[k], bound);
    }
  }

  /** The sorted queue that the grouping sees: what expiry at t0 kept, and new arrivals. */
  function QueueAfterExpiry(queue: seq<Request>, t0: real, maxAge: real, arrivals: seq<Request>): seq<Request> {
    SortByElo(ByAge(queue, t0, maxAge, false) + arrivals)
  }

  lemma SortingKeepsMembers(s: seq<Request>, r: Request)
    ensures r in SortByElo(s) <==> r in s
  {
    assert r in SortByElo(s) <==> r in multiset(SortByElo(s));
    assert r in s <==> r in multiset(s);
  }

  lemma QueuedIsYoung(queue: seq<Request>, t0: real, maxAge: real, arrivals: seq<Request>, r: Request)
    requires r in QueueAfterExpiry(queue, t0, maxAge, arrivals)
    requires forall r <- arrivals :: !Expired(r, t0, maxAge)
    ensures !Expired(r, t0, maxAge)
  {
    ExpirySplits(queue, t0, maxAge);
    SortingKeepsMembers(ByAge(queue, t0, maxAge, false) + arrivals, r);
  }

  /** Expire at t0, then match less than one window later: members of a lobby differ by
      at most the initial range plus two expansions, whatever else the queue holds. */
  lemma LobbySpreadBound(cfg: Config, queue: seq<Request>, t0: real, arrivals: seq<Request>, now: real)
    requires cfg.Valid() && now < t0 + cfg.matchTimeout
    requires forall r <- arrivals :: !Expired(r, t0, cfg.MaxWait())
    ensures var s := QueueAfterExpiry(queue, t0, cfg.MaxWait(), arrivals);
            var lobbies := FullScan(s, RulesAt(cfg, now)).lobbies;
            && Within(lobbies, |s|)
            && forall k :: 0 <= k < |lobbies| ==>
                 SpreadAtMost(s, lobbies[k], cfg.eloRangeInitial + 2 * cfg.eloRangeExpand)
  {
    var s, rules := QueueAfterExpiry(queue, t0, cfg.MaxWait(), arrivals), RulesAt(cfg, now);
    forall r <- s ensures rules.range(r) <= cfg.eloRangeInitial + 2 * cfg.eloRangeExpand {
      QueuedIsYoung(queue, t0, cfg.MaxWait(), arrivals, r);
      RangeWithinThreeWindows(cfg, now, r);
    }
    ScanSpread(s, rules, cfg.eloRangeInitial + 2 * cfg.eloRangeExpand);
  }
}
