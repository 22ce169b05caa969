// Elo matchmaking: the greedy grouping loop of one matchmaking tick, with its
// `used` index set and rollback, and request expiry.
module Matching {
  datatype Request = Request(playerId: string, elo: int, timestamp: real)

  datatype Config = Config(
    matchTimeout: real,
    lobbyMin: nat,
    lobbyMax: nat,
    eloRangeInitial: nat,
    eloRangeExpand: nat)
  {
    ghost predicate Valid() {
      matchTimeout > 0.0 && 2 <= lobbyMin <= lobbyMax
    }

    /** Requests expire after two windows. */
    function MaxWait(): real {
      matchTimeout * 2.0
    }
  }

  /** How far from its own rating a request accepts others after waiting since `timestamp`. */
  function RangeAllowed(cfg: Config, now: real, r: Request): int
    requires cfg.Valid()
  {
    cfg.eloRangeInitial + ((now - r.timestamp) / cfg.matchTimeout).Floor * cfg.eloRangeExpand
  }

  /** What the grouping depends on, for an arbitrary range per request. */
  datatype Rules = Rules(min: nat, max: nat, range: Request -> int) {
    ghost predicate Valid() {
      2 <= min <= max
    }
  }

  function RulesAt(cfg: Config, now: real): (r: Rules)
    requires cfg.Valid()
    ensures r.Valid()
  {
    Rules(cfg.lobbyMin, cfg.lobbyMax, (r: Request) => RangeAllowed(cfg, now, r))
  }

  function Abs(x: int): int { if x < 0 then -x else x }

  predicate InRange(rules: Rules, anchor: Request, other: Request) {
    Abs(anchor.elo - other.elo) <= rules.range(anchor)
  }

  // -------------------------------------------------------------------- sorting

  ghost predicate Sorted(s: seq<Request>) {
    forall i, j :: 0 <= i < j < |s| ==> s[i].elo <= s[j].elo
  }

  /** Where a later arrival goes: behind every request rated no higher. */
  function Position(s: seq<Request>, r: Request): (p: nat)
    requires Sorted(s)
    ensures p <= |s|
    ensures forall k :: 0 <= k < p ==> s[k].elo <= r.elo
    ensures forall k :: p <= k < |s| ==> s[k].elo > r.elo
  {
    if s == [] || s[|s| - 1].elo <= r.elo then |s| else Position(s[..|s| - 1], r)
  }

  function InsertByElo(s: seq<Request>, r: Request): (t: seq<Request>)
    requires Sorted(s)
    ensures Sorted(t) && multiset(t) == multiset(s) + multiset{r}
    ensures |t| == |s| + 1
  {
    var p := Position(s, r);
    assert s == s[..p] + s[p..];
    s[..p] + [r] + s[p..]
  }

  /** list.sort(key=elo): stable, so equal ratings keep their order of arrival. */
  function SortByElo(s: seq<Request>): (t: seq<Request>)
    ensures Sorted(t) && multiset(t) == multiset(s)
    ensures |t| == |s|
  {
    if s == [] then []
    else
      assert s == s[..|s| - 1] + [s[|s| - 1]];
      InsertByElo(SortByElo(s[..|s| - 1]), s[|s| - 1])
  }

  /** The requests of one rating, in order. */
  function OfElo(s: seq<Request>, elo: int): seq<Request> {
    if s == [] then []
    else OfElo(s[..|s| - 1], elo) + if s[|s| - 1].elo == elo then [s[|s| - 1]] else []
  }

  lemma {:induction false} OfEloAppend(a: seq<Request>, b: seq<Request>, elo: int)
    ensures OfElo(a + b, elo) == OfElo(a, elo) + OfElo(b, elo)
  {
    if b == [] {
      assert a + b == a;
    } else {
      var rest, last := b[..|b| - 1], if b[|b| - 1].elo == elo then [b[|b| - 1]] else [];
      OfEloAppend(a, rest, elo);
      assert (a + b)[..|a + b| - 1] == a + rest;
      assert OfElo(a, elo) + (OfElo(rest, elo) + last) == OfElo(a, elo) + OfElo(rest, elo) + last;
    }
  }

  lemma OfEloSnoc(s: seq<Request>, r: Request, elo: int)
    ensures OfElo(s + [r], elo) == OfElo(s, elo) + if r.elo == elo then [r] else []
  {
    assert (s + [r])[..|s|] == s;
  }

  lemma {:induction false} NoneOfElo(s: seq<Request>, elo: int)
    requires forall k :: 0 <= k < |s| ==> s[k].elo != elo
    ensures OfElo(s, elo) == []
  {
    if s != [] {
      NoneOfElo(s[..|s| - 1], elo);
    }
  }

  lemma OfEloInsert(a: seq<Request>, r: Request, b: seq<Request>, elo: int)
    requires r.elo == elo ==> OfElo(b, elo) == []
    ensures OfElo(a + [r] + b, elo) == OfElo(a + b, elo) + if r.elo == elo then [r] else []
  {
    OfEloAppend(a, b, elo);
    OfEloAppend(a + [r], b, elo);
    OfEloSnoc(a, r, elo);
  }

  lemma InsertIsStable(s: seq<Request>, r: Request, elo: int)
    requires Sorted(s)
    ensures OfElo(InsertByElo(s, r), elo) == OfElo(s, elo) + if r.elo == elo then [r] else []
  {
    var p := Position(s, r);
    assert s == s[..p] + s[p..];
    if r.elo == elo {
      NoneOfElo(s[p..], elo);
    }
    OfEloInsert(s[..p], r, s[p..], elo);
  }

  /** Requests of the same rating stay in order of arrival. */
  lemma {:induction false} SortIsStable(s: seq<Request>, elo: int)
    ensures OfElo(SortByElo(s), elo) == OfElo(s, elo)
  {
    if s != [] {
      SortIsStable(s[..|s| - 1], elo);
      InsertIsStable(SortByElo(s[..|s| - 1]), s[|s| - 1], elo);
    }
  }

  lemma {:induction false} SortedIsFixed(s: seq<Request>)
    requires Sorted(s)
    ensures SortByElo(s) == s
  {
    if s != [] {
      var rest, last := s[..|s| - 1], s[|s| - 1];
      SortedIsFixed(rest);
      assert Position(rest, last) == |rest|;
      assert rest[..|rest|] + [last] + rest[|rest|..] == s;
    }
  }

  // ---------------------------------------------------- the loop, on indices

  /** Indices marked used and lobbies formed so far. */
  datatype Scan = Scan(used: set<nat>, lobbies: seq<seq<nat>>)

  /** list.index: the first position holding an equal request. */
  function FirstIndex(s: seq<Request>, r: Request): (k: nat)
    requires r in s
    ensures k < |s| && s[k] == r && r !in s[..k]
  {
    if s[0] == r then 0
    else
      assert s == [s[0]] + s[1..];
      var k := FirstIndex(s[1..], r);
      assert s[..k + 1] == [s[0]] + s[1..][..k];
      k + 1
  }

  /** The inner loop from j on: claim requests in the range of anchor i until full. */
  function Collect(s: seq<Request>, rules: Rules, i: nat, j: nat, used: set<nat>, lobby: seq<nat>): (seq<nat>, set<nat>)
    requires i < |s|
    decreases |s| - j
  {
    if j >= |s| then (lobby, used)
    else if j in used || !InRange(rules, s[i], s[j]) then Collect(s, rules, i, j + 1, used, lobby)
    else if |lobby| + 1 >= rules.max then (lobby + [j], used + {j})
    else Collect(s, rules, i, j + 1, used + {j}, lobby + [j])
  }

  ghost predicate InBounds(indices: seq<nat>, n: nat) {
    forall k :: 0 <= k < |indices| ==> indices[k] < n
  }

  /** The rollback loop: release the first position of each of these members. */
  function Release(s: seq<Request>, used: set<nat>, members: seq<nat>): set<nat>
    requires InBounds(members, |s|)
  {
    if members == [] then used
    else Release(s, used, members[..|members| - 1]) - {FirstIndex(s, s[members[|members| - 1]])}
  }

  lemma {:induction false} CollectBounds(s: seq<Request>, rules: Rules, i: nat, j: nat, used: set<nat>, lobby: seq<nat>)
    requires i < j && i < |s| && InBounds(lobby, |s|)
    ensures var c := Collect(s, rules, i, j, used, lobby);
            lobby <= c.0 && InBounds(c.0, |s|)
    ensures forall k: nat :: k in Collect(s, rules, i, j, used, lobby).1 <==>
              k in used || k in Collect(s, rules, i, j, used, lobby).0[|lobby|..]
    ensures forall k <- Collect(s, rules, i, j, used, lobby).0[|lobby|..] :: k >= j && k !in used
    decreases |s| - j
  {
    if j < |s| {
      if j in used || !InRange(rules, s[i], s[j]) {
        CollectBounds(s, rules, i, j + 1, used, lobby);
      } else {
        var lobby' := lobby + [j];
        if |lobby'| < rules.max {
          CollectBounds(s, rules, i, j + 1, used + {j}, lobby');
          var c := Collect(s, rules, i, j + 1, used + {j}, lobby');
          assert c.0[|lobby|..] == [j] + c.0[|lobby'|..];
        } else {
          assert lobby'[|lobby|..] == [j];
        }
      }
    }
  }

  /** One iteration of the outer loop. */
  function Anchor(s: seq<Request>, rules: Rules, i: nat, st: Scan): Scan
    requires i < |s|
  {
    if i in st.used then st
    else
      var (lobby, used) := Collect(s, rules, i, i + 1, st.used + {i}, [i]);
      if |lobby| >= rules.min then Scan(used, st.lobbies + [lobby])
      else
        CollectBounds(s, rules, i, i + 1, st.used + {i}, [i]);
        Scan(Release(s, used - {i}, lobby[1..]), st.lobbies)
  }

  /** The rest of the outer loop from anchor i on. */
  function ScanFrom(s: seq<Request>, rules: Rules, i: nat, st: Scan): Scan
    decreases |s| - i
  {
    if i >= |s| then st else ScanFrom(s, rules, i + 1, Anchor(s, rules, i, st))
  }

  function FullScan(s: seq<Request>, rules: Rules): Scan {
    ScanFrom(s, rules, 0, Scan({}, []))
  }

  // --------------------------------------------------------- from indices to requests

  function Unused(used: set<nat>, n: nat): (left: seq<nat>)
    ensures forall k: nat :: k in left <==> k < n && k !in used
    ensures InBounds(left, n)
    ensures forall a, b :: 0 <= a < b < |left| ==> left[a] < left[b]
  {
    if n == 0 then []
    else if n - 1 in used then Unused(used, n - 1) else Unused(used, n - 1) + [n - 1]
  }

  function Pick(s: seq<Request>, indices: seq<nat>): (r: seq<Request>)
    requires InBounds(indices, |s|)
    ensures |r| == |indices| && forall k :: 0 <= k < |r| ==> r[k] == s[indices[k]]
  {
    seq(|indices|, k requires 0 <= k < |indices| => s[indices[k]])
  }

  ghost predicate Within(lobbies: seq<seq<nat>>, n: nat) {
    forall k :: 0 <= k < |lobbies| ==> InBounds(lobbies[k], n)
  }

  function PickAll(s: seq<Request>, lobbies: seq<seq<nat>>): (r: seq<seq<Request>>)
    requires Within(lobbies, |s|)
    ensures |r| == |lobbies|
  {
    if lobbies == [] then [] else PickAll(s, lobbies[..|lobbies| - 1]) + [Pick(s, lobbies[|lobbies| - 1])]
  }

  lemma PickAllSnoc(s: seq<Request>, lobbies: seq<seq<nat>>, lobby: seq<nat>)
    requires Within(lobbies, |s|) && InBounds(lobby, |s|)
    ensures Within(lobbies + [lobby], |s|)
    ensures PickAll(s, lobbies + [lobby]) == PickAll(s, lobbies) + [Pick(s, lobby)]
  {
  }

  lemma {:induction false} ScanStaysWithin(s: seq<Request>, rules: Rules, i: nat, st: Scan)
    requires Within(st.lobbies, |s|)
    ensures Within(ScanFrom(s, rules, i, st).lobbies, |s|)
    decreases |s| - i
  {
    if i < |s| {
      if i !in st.used {
        CollectBounds(s, rules, i, i + 1, st.used + {i}, [i]);
      }
      ScanStaysWithin(s, rules, i + 1, Anchor(s, rules, i, st));
    }
  }

  // --------------------------------------------------------------- the matcher

  predicate Expired(r: Request, now: real, maxAge: real) {
    now - r.timestamp > maxAge
  }

  function ByAge(s: seq<Request>, now: real, maxAge: real, aged: bool): seq<Request> {
    if s == [] then []
    else
      var rest := ByAge(s[..|s| - 1], now, maxAge, aged);
      if Expired(s[|s| - 1], now, maxAge) == aged then rest + [s[|s| - 1]] else rest
  }

  /** Expiry splits the queue: nobody is lost or copied, and only the old ones go. */
  lemma {:induction false} ExpirySplits(s: seq<Request>, now: real, maxAge: real)
    ensures multiset(ByAge(s, now, maxAge, false)) + multiset(ByAge(s, now, maxAge, true)) == multiset(s)
    ensures forall r <- ByAge(s, now, maxAge, false) :: !Expired(r, now, maxAge)
    ensures forall r <- ByAge(s, now, maxAge, true) :: Expired(r, now, maxAge)
  {
    if s != [] {
      ExpirySplits(s[..|s| - 1], now, maxAge);
      assert s == s[..|s| - 1] + [s[|s| - 1]];
    }
  }

  /** Each part keeps the order of the queue. */
  lemma {:induction false} ExpiryKeepsOrder(a: seq<Request>, b: seq<Request>, now: real, maxAge: real, aged: bool)
    ensures ByAge(a + b, now, maxAge, aged) == ByAge(a, now, maxAge, aged) + ByAge(b, now, maxAge, aged)
  {
    if b == [] {
      assert a + b == a;
    } else {
      var rest := b[..|b| - 1];
      ExpiryKeepsOrder(a, rest, now, maxAge, aged);
      assert (a + b)[..|a + b| - 1] == a + rest;
    }
  }

  lemma {:induction false} ByAgeMembers(s: seq<Request>, now: real, maxAge: real, aged: bool, r: Request)
    ensures r in ByAge(s, now, maxAge, aged) <==> r in s && (aged <==> now - r.timestamp > maxAge)
  {
    if s != [] {
      ByAgeMembers(s[..|s| - 1], now, maxAge, aged, r);
      assert s == s[..|s| - 1] + [s[|s| - 1]];
    }
  }

  /** A request is dropped if and only if it has waited for more than two windows. */
  lemma ExpiresAfterTwoWindows(cfg: Config, queue: seq<Request>, now: real, r: Request)
    ensures r in ByAge(queue, now, cfg.MaxWait(), true) <==> r in queue && now > r.timestamp + 2.0 * cfg.matchTimeout
    ensures r in ByAge(queue, now, cfg.MaxWait(), false) <==> r in queue && now <= r.timestamp + 2.0 * cfg.matchTimeout
  {
    ByAgeMembers(queue, now, cfg.MaxWait(), true, r);
    ByAgeMembers(queue, now, cfg.MaxWait(), false, r);
  }

  class Matcher {
    var pending: seq<Request>

    constructor ()
      ensures pending == []
    {
      pending := [];
    }

    method AddRequest(req: Request)
      modifies this
      ensures pending == old(pending) + [req]
    {
      pending := pending + [req];
    }

    method ExpireRequests(now: real, maxAge: real) returns (expired: seq<Request>)
      modifies this
      ensures pending == ByAge(old(pending), now, maxAge, false)
      ensures expired == ByAge(old(pending), now, maxAge, true)
    {
      expired := [];
      var kept := [];
      for i := 0 to |pending|
        invariant kept == ByAge(pending[..i], now, maxAge, false)
        invariant expired == ByAge(pending[..i], now, maxAge, true)
      {
        assert pending[..i + 1][..i] == pending[..i];
        if Expired(pending[i], now, maxAge) {
          expired := expired + [pending[i]];
        } else {
          kept := kept + [pending[i]];
        }
      }
      assert pending[..|pending|] == pending;
      pending := kept;
    }

    /** Collects the lobby of anchor i, as the inner loop does. */
    method CollectLobby(rules: Rules, i: nat, used0: set<nat>)
      returns (lobby: seq<Request>, used: set<nat>, ghost members: seq<nat>)
      requires i < |pending|
      ensures (members, used) == Collect(pending, rules, i, i + 1, used0 + {i}, [i])
      ensures InBounds(members, |pending|) && lobby == Pick(pending, members)
    {
      lobby, used, members := [pending[i]], used0 + {i}, [i];
      var j := i + 1;
      while j < |pending|
        invariant i < j <= |pending|
        invariant InBounds(members, |pending|) && lobby == Pick(pending, members)
        invariant Collect(pending, rules, i, j, used, members) == Collect(pending, rules, i, i + 1, used0 + {i}, [i])
      {
        if j !in used {
          var other := pending[j];
          if Abs(pending[i].elo - other.elo) <= rules.range(pending[i]) {
            lobby, members := lobby + [other], members + [j];
            used := used + {j};
            if |lobby| >= rules.max {
              return;
            }
          }
        }
        j := j + 1;
      }
    }

    /** Releases the members of a lobby that stayed too small, by value as the code does. */
    method RollBack(others: seq<Request>, used0: set<nat>, ghost members: seq<nat>) returns (used: set<nat>)
      requires InBounds(members, |pending|) && others == Pick(pending, members)
      ensures used == Release(pending, used0, members)
    {
      used := used0;
      for k := 0 to |others|
        invariant used == Release(pending, used0, members[..k])
      {
        assert members[..k + 1][..k] == members[..k];
        used := used - {FirstIndex(pending, others[k])};
      }
      assert members[..|others|] == members;
    }

    /** Both loops over the sorted queue. */
    method Group(rules: Rules) returns (lobbies: seq<seq<Request>>, used: set<nat>, ghost indices: seq<seq<nat>>)
      ensures Within(indices, |pending|) && lobbies == PickAll(pending, indices)
      ensures FullScan(pending, rules) == Scan(used, indices)
    {
      lobbies, used, indices := [], {}, [];
      for i := 0 to |pending|
        invariant Within(indices, |pending|) && lobbies == PickAll(pending, indices)
        invariant ScanFrom(pending, rules, i, Scan(used, indices)) == FullScan(pending, rules)
      {
        if i !in used {
          var lobby, used', members := CollectLobby(rules, i, used);
          CollectBounds(pending, rules, i, i + 1, used + {i}, [i]);
          if |lobby| >= rules.min {
            PickAllSnoc(pending, indices, members);
            lobbies, indices, used := lobbies + [lobby], indices + [members], used';
          } else {
            used := RollBack(lobby[1..], used' - {i}, members[1..]);
          }
        }
      }
    }

    /** One grouping pass: exactly the index computation FullScan, for every queue. */
    method MatchTick(cfg: Config, now: real) returns (lobbies: seq<seq<Request>>)
      requires cfg.Valid()
      modifies this
      ensures var s := SortByElo(old(pending));
              var scan := FullScan(s, RulesAt(cfg, now));
              && Within(scan.lobbies, |s|)
              && lobbies == PickAll(s, scan.lobbies)
              && pending == Pick(s, Unused(scan.used, |s|))
    {
      pending := SortByElo(pending);
      var used;
      ghost var indices;
      lobbies, used, indices := Group(RulesAt(cfg, now));
      pending := Pick(pending, Unused(used, |pending|));
    }
  }
}
