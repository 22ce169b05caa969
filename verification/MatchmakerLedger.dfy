// Where every accepted request is, in every run of the matchmaker: what a pass that is
// cut short by an exception doubles or loses, and that nothing else does.
module MatchmakerLedger {
  import opened Options
  import opened Matching
  import opened Grouping
  import opened MatchQuality
  import opened RoomPool
  import opened Matchmaker
  import opened MatchmakerRuns

  function InLobbies(ws: seq<Waiting>): multiset<Request> {
    if ws == [] then multiset{} else InLobbies(ws[..|ws| - 1]) + multiset(ws[|ws| - 1].lobby)
  }

  lemma InLobbiesSnoc(ws: seq<Waiting>, w: Waiting)
    ensures InLobbies(ws + [w]) == InLobbies(ws) + multiset(w.lobby)
  {
    assert (ws + [w])[..|ws|] == ws;
  }

  /** Every accepted request is in exactly one place: queued, expired, in a lobby waiting
      for a room, notified, given up on, or lost to a failed announcement. The gauge counts
      those queued and waiting, and still counts the last two groups. */
  ghost predicate Balanced(d: Desk) {
    var l, waiting := d.ledger, InLobbies(d.pending);
    && l.accepted == (multiset(d.queue) + l.expired) + (waiting + l.notified + l.exhausted + l.failed)
    && d.queueDepth == |d.queue| + |waiting| + |l.exhausted| + |l.failed|
  }

  // ----------------------------------------------------------------------- books

  /** How often a request occurs, or how many requests there are. */
  function Weight(q: Option<Request>, m: multiset<Request>): nat {
    if q.Some? then m[q.value] else |m|
  }

  lemma WeightAdds(q: Option<Request>, a: multiset<Request>, b: multiset<Request>)
    ensures Weight(q, a + b) == Weight(q, a) + Weight(q, b)
  {
  }

  lemma WeightOfLobby(q: Option<Request>, lobby: Lobby)
    ensures q.None? ==> Weight(q, multiset(lobby)) == |lobby|
  {
  }

  /** For one request: occurrences outside the retry list minus acceptances. For the gauge:
      the requests it should count outside the retry list minus those it does count. */
  function Books(d: Desk, q: Option<Request>): int {
    if q.Some? then
      multiset(d.queue)[q.value] + d.ledger.expired[q.value] + d.ledger.notified[q.value]
      + d.ledger.exhausted[q.value] + d.ledger.failed[q.value] - d.ledger.accepted[q.value]
    else |d.queue| + |d.ledger.exhausted| + |d.ledger.failed| - d.queueDepth
  }

  /** How much the books are off, the retry list included. */
  function Off(d: Desk, q: Option<Request>): int {
    Books(d, q) + Weight(q, InLobbies(d.pending))
  }

  lemma SamePlaces(d: Desk, extra: multiset<Request>, less: multiset<Request>)
    requires forall q :: Off(d, q) == Weight(q, extra) - Weight(q, less)
    ensures var l, waiting := d.ledger, InLobbies(d.pending);
      && l.accepted + extra == (multiset(d.queue) + l.expired) + (waiting + l.notified + l.exhausted + l.failed) + less
      && d.queueDepth + |extra| == |d.queue| + |waiting| + |l.exhausted| + |l.failed| + |less|
  {
    var l, waiting := d.ledger, InLobbies(d.pending);
    var places := (multiset(d.queue) + l.expired) + (waiting + l.notified + l.exhausted + l.failed) + less;
    forall r: Request ensures (l.accepted + extra)[r] == places[r] {
      assert Off(d, Some(r)) == Weight(Some(r), extra) - Weight(Some(r), less);
    }
    assert Off(d, None) == Weight(None, extra) - Weight(None, less);
  }

  /** The books balance if and only if nothing is off. */
  lemma BalancedIsZero(d: Desk)
    ensures Balanced(d) <==> forall q :: Off(d, q) == 0
  {
    if forall q :: Off(d, q) == 0 {
      SamePlaces(d, multiset{}, multiset{});
      var l, waiting := d.ledger, InLobbies(d.pending);
      assert l.accepted + multiset{} == l.accepted;
      var places := (multiset(d.queue) + l.expired) + (waiting + l.notified + l.exhausted + l.failed);
      assert places + multiset{} == places;
    }
  }

  // ------------------------------------------------------------- one lobby at a time

  lemma AssignBooks(d: Desk, lobby: Lobby, room: RoomId, env: Env, q: Option<Request>)
    requires env.Env? && Ordered(d.rooms)
    ensures var d' := Assign(d, lobby, room, env);
            Books(d', q) == Books(d, q) + Weight(q, multiset(lobby)) && d'.pending == d.pending
  {
    WeightAdds(q, d.ledger.notified, multiset(lobby));
    WeightAdds(q, d.ledger.failed, multiset(lobby));
    WeightOfLobby(q, lobby);
  }

  lemma GiveUpBooks(d: Desk, lobby: Lobby, q: Option<Request>)
    ensures Books(d.(ledger := d.ledger.(exhausted := d.ledger.exhausted + multiset(lobby))), q)
            == Books(d, q) + Weight(q, multiset(lobby))
  {
    WeightAdds(q, d.ledger.exhausted, multiset(lobby));
  }

  /** A lobby that leaves the retry list enters the books; one that stays does not. */
  lemma RetryOneBooks(d: Desk, w: Waiting, env: Env, q: Option<Request>)
    requires env.Env? && Ordered(d.rooms)
    ensures var (d', stays) := RetryOne(d, w, env);
            Books(d', q) == Books(d, q) + if stays.Some? then 0 else Weight(q, multiset(w.lobby))
  {
    var (room, rooms) := Claim(d.rooms, env);
    if room.Some? {
      AssignBooks(d.(rooms := rooms), w.lobby, room.value, env, q);
    } else {
      GiveUpBooks(d, w.lobby, q);
    }
  }

  lemma PlaceOneBooks(d: Desk, lobby: Lobby, env: Env, q: Option<Request>)
    requires env.Env? && Ordered(d.rooms)
    ensures Off(PlaceOne(d, lobby, env), q) == Off(d, q) + Weight(q, multiset(lobby))
  {
    var (room, rooms) := Claim(d.rooms, env);
    if room.Some? {
      AssignBooks(d.(rooms := rooms), lobby, room.value, env, q);
    } else {
      InLobbiesSnoc(d.pending, Waiting(lobby, 0));
      WeightAdds(q, InLobbies(d.pending), multiset(lobby));
    }
  }

  // -------------------------------------------------------------------- a retry pass

  lemma RetryStepBooks(r: RetryResult, d: Desk, k: nat, still: seq<Waiting>, gone: seq<Lobby>, env: nat -> Env,
                       q: Option<Request>)
    returns (d': Desk, still': seq<Waiting>, gone': seq<Lobby>)
    requires Underway(r, d, k, still, gone, env) && k < |d.pending| && env(k).Env?
    ensures d'.pending == d.pending && Underway(r, d', k + 1, still', gone', env)
    ensures var w := d.pending[k];
            || (still' == still + [Waiting(w.lobby, w.retry + 1)] && gone' == gone && Books(d', q) == Books(d, q))
            || (still' == still && gone' == gone + [w.lobby]
                && Books(d', q) == Books(d, q) + Weight(q, multiset(w.lobby)))
  {
    var w := d.pending[k];
    RetryOneBooks(d, w, env(k), q);
    var (next, stays) := RetryOne(d, w, env(k));
    d' := next;
    still' := if stays.Some? then still + [stays.value] else still;
    gone' := if stays.Some? then gone else gone + [w.lobby];
  }

  /** A pass that runs to its end moves what it takes off the list into the books; a pass
      cut short enters it there and leaves it on the list as well. */
  ghost predicate Entered(r: RetryResult, q: Option<Request>, off: int) {
    Off(r.desk, q) == off + if r.completed then 0 else Weight(q, Members(r.gone))
  }

  /** What stays and what is gone is the list so far, and what is gone is in the books. */
  ghost predicate Half(d: Desk, k: nat, still: seq<Waiting>, gone: seq<Lobby>, q: Option<Request>, off: int)
    requires k <= |d.pending|
  {
    && Weight(q, InLobbies(still)) + Weight(q, Members(gone)) == Weight(q, InLobbies(d.pending[..k]))
    && off == Books(d, q) - Weight(q, Members(gone)) + Weight(q, InLobbies(d.pending))
  }

  lemma HalfGoesOn(d: Desk, k: nat, still: seq<Waiting>, gone: seq<Lobby>, q: Option<Request>, off: int,
                   d': Desk, still': seq<Waiting>, gone': seq<Lobby>)
    requires k < |d.pending| && Half(d, k, still, gone, q, off) && d'.pending == d.pending
    requires var w := d.pending[k];
            || (still' == still + [Waiting(w.lobby, w.retry + 1)] && gone' == gone && Books(d', q) == Books(d, q))
            || (still' == still && gone' == gone + [w.lobby]
                && Books(d', q) == Books(d, q) + Weight(q, multiset(w.lobby)))
    ensures Half(d', k + 1, still', gone', q, off)
  {
    var w := d.pending[k];
    assert d.pending[..k + 1] == d.pending[..k] + [w];
    InLobbiesSnoc(d.pending[..k], w);
    WeightAdds(q, InLobbies(d.pending[..k]), multiset(w.lobby));
    InLobbiesSnoc(still, Waiting(w.lobby, w.retry + 1));
    WeightAdds(q, InLobbies(still), multiset(w.lobby));
    MembersSnoc(gone, w.lobby);
    WeightAdds(q, Members(gone), multiset(w.lobby));
  }

  lemma {:induction false} PassBooks(r: RetryResult, d: Desk, k: nat, still: seq<Waiting>, gone: seq<Lobby>,
                                     env: nat -> Env, q: Option<Request>, off: int)
    requires Underway(r, d, k, still, gone, env) && Half(d, k, still, gone, q, off)
    ensures Entered(r, q, off)
    decreases |d.pending| - k
  {
    if k == |d.pending| || env(k).ClaimRaises? {
      PassEnds(r, d, k, still, gone, env);
      assert d.pending[..|d.pending|] == d.pending;
    } else {
      var d', still', gone' := RetryStepBooks(r, d, k, still, gone, env, q);
      HalfGoesOn(d, k, still, gone, q, off, d', still', gone');
      PassBooks(r, d', k + 1, still', gone', env, q, off);
    }
  }

  lemma RetryBooks(d: Desk, env: nat -> Env, q: Option<Request>)
    requires Ordered(d.rooms)
    ensures Entered(Retry(d, env), q, Off(d, q))
  {
    assert d.pending[..0] == [];
    PassBooks(Retry(d, env), d, 0, [], [], env, q, Off(d, q));
  }

  lemma {:induction false} MembersEmptyIff(lobbies: seq<Lobby>)
    ensures Members(lobbies) == multiset{} <==> forall k :: 0 <= k < |lobbies| ==> lobbies[k] == []
  {
    if lobbies != [] {
      var rest, last := lobbies[..|lobbies| - 1], lobbies[|lobbies| - 1];
      MembersEmptyIff(rest);
      assert |Members(lobbies)| == |Members(rest)| + |last|;
      assert Members(lobbies) == multiset{} <==> |Members(lobbies)| == 0;
      assert Members(rest) == multiset{} <==> |Members(rest)| == 0;
    }
  }

  /** The books of every request, and of the gauge, are off by as much as before. */
  ghost predicate KeepsBooks(d: Desk, d': Desk) {
    forall q :: Off(d', q) == Off(d, q)
  }

  /** Any desk: a retry pass keeps the books if and only if no listing raises in it, or every
      lobby before the listing that raises finds no room and has retries left, or is empty. */
  lemma RetryKeepsBooksIff(d: Desk, env: nat -> Env)
    requires Ordered(d.rooms)
    ensures KeepsBooks(d, Retry(d, env).desk) <==> NothingUndone(d, env, true)
    ensures Balanced(d) ==> (Balanced(Retry(d, env).desk) <==> NothingUndone(d, env, true))
  {
    RetryUndoneIff(d, env, true);
    var r := Retry(d, env);
    forall q ensures Entered(r, q, Off(d, q)) {
      RetryBooks(d, env, q);
    }
    MembersEmptyIff(r.gone);
    assert Off(r.desk, None) == Off(d, None) + if r.completed then 0 else |Members(r.gone)|;
    BalancedIsZero(d);
    BalancedIsZero(r.desk);
  }

  // ------------------------------------------------------------------ a placing pass

  lemma PlaceStep(d: Desk, lobbies: seq<Lobby>, k: nat, env: nat -> Env, r: (Desk, bool), q: Option<Request>)
    returns (d': Desk)
    requires k < |lobbies| && Ordered(d.rooms) && env(k).Env? && r == PlaceFrom(d, lobbies, k, env)
    ensures Ordered(d'.rooms) && d'.queue == d.queue && r == PlaceFrom(d', lobbies, k + 1, env)
    ensures Off(d', q) == Off(d, q) + Weight(q, multiset(lobbies[k]))
  {
    d' := PlaceOne(d, lobbies[k], env(k));
    PlaceOneBooks(d, lobbies[k], env(k), q);
  }

  /** What the pass never reaches is all that its books lack. */
  lemma {:induction false} PlaceBooks(d: Desk, lobbies: seq<Lobby>, k: nat, env: nat -> Env, r: (Desk, bool),
                                      q: Option<Request>)
    requires k <= |lobbies| && Ordered(d.rooms) && r == PlaceFrom(d, lobbies, k, env)
    ensures Off(r.0, q) + Weight(q, Members(LostFrom(lobbies, k, env))) == Off(d, q) + Weight(q, Members(lobbies[k..]))
    ensures r.0.queue == d.queue
    decreases |lobbies| - k
  {
    if k == |lobbies| {
      assert lobbies[k..] == [];
    } else if env(k).Env? {
      var d' := PlaceStep(d, lobbies, k, env, r, q);
      PlaceBooks(d', lobbies, k + 1, env, r, q);
      assert lobbies[k..][1..] == lobbies[k + 1..];
      MembersFront(lobbies[k..]);
      WeightAdds(q, multiset(lobbies[k]), Members(lobbies[k + 1..]));
    }
  }

  lemma {:induction false} MembersFront(lobbies: seq<Lobby>)
    requires lobbies != []
    ensures Members(lobbies) == multiset(lobbies[0]) + Members(lobbies[1..])
  {
    var rest, last := lobbies[..|lobbies| - 1], lobbies[|lobbies| - 1];
    if rest == [] {
      assert lobbies[1..] == [];
    } else {
      MembersFront(rest);
      assert lobbies[1..] == rest[1..] + [last];
      MembersSnoc(rest[1..], last);
      assert (multiset(lobbies[0]) + Members(rest[1..])) + multiset(last)
          == multiset(lobbies[0]) + (Members(rest[1..]) + multiset(last));
    }
  }

  /** The grouping of one tick finds no rollback that could go wrong. */
  ghost predicate CleanTick(cfg: Config, d: Desk, now: real)
    requires cfg.Valid()
  {
    Clean(SortByElo(d.queue), RulesAt(cfg, now))
  }

  lemma GroupingBooks(d: Desk, cfg: Config, now: real, q: Option<Request>)
    requires cfg.Valid() && CleanTick(cfg, d, now)
    ensures var (lobbies, rest) := Grouped(d, cfg, now);
            Off(d.(queue := rest), q) + Weight(q, Members(lobbies)) == Off(d, q)
  {
    CleanTickPartitions(d.queue, RulesAt(cfg, now));
    var (lobbies, rest) := Grouped(d, cfg, now);
    WeightAdds(q, Members(lobbies), multiset(rest));
    WeightOfLobby(q, rest);
    WeightOfLobby(q, d.queue);
  }

  /** The lobbies of a tick that its placing pass never reaches. */
  ghost function LostIn(d: Desk, cfg: Config, now: real, env: nat -> Env): seq<Lobby>
    requires cfg.Valid()
  {
    LostFrom(Grouped(d, cfg, now).0, 0, env)
  }

  lemma PlacingBooks(d: Desk, cfg: Config, now: real, env: nat -> Env, q: Option<Request>)
    requires cfg.Valid() && Ordered(d.rooms) && CleanTick(cfg, d, now)
    ensures Off(Place(d, cfg, now, env).0, q) == Off(d, q) - Weight(q, Members(LostIn(d, cfg, now, env)))
  {
    GroupingBooks(d, cfg, now, q);
    var (lobbies, rest) := Grouped(d, cfg, now);
    PlaceBooks(d.(queue := rest), lobbies, 0, env, Place(d, cfg, now, env), q);
    assert lobbies[0..] == lobbies;
  }

  lemma {:induction false} PickAllAt(s: seq<Request>, lobbies: seq<seq<nat>>, k: nat)
    requires Within(lobbies, |s|) && k < |lobbies|
    ensures |PickAll(s, lobbies)[k]| == |lobbies[k]|
  {
    if k < |lobbies| - 1 {
      PickAllAt(s, lobbies[..|lobbies| - 1], k);
    }
  }

  lemma LobbiesAreNotEmpty(d: Desk, cfg: Config, now: real, k: nat)
    requires cfg.Valid() && CleanTick(cfg, d, now) && k < |Grouped(d, cfg, now).0|
    ensures Grouped(d, cfg, now).0[k] != []
  {
    var s := SortByElo(d.queue);
    CleanTickPartitions(d.queue, RulesAt(cfg, now));
    var end := FullScan(s, RulesAt(cfg, now));
    PickAllAt(s, end.lobbies, k);
    assert IsLobby(s, RulesAt(cfg, now), end.lobbies[k]);
  }

  lemma {:induction false} LostIffRaised(lobbies: seq<Lobby>, k: nat, env: nat -> Env)
    requires k <= |lobbies|
    ensures LostFrom(lobbies, k, env) == [] <==> forall j :: k <= j < |lobbies| ==> env(j).Env?
    ensures forall m :: 0 <= m < |LostFrom(lobbies, k, env)| ==> LostFrom(lobbies, k, env)[m] in lobbies
    decreases |lobbies| - k
  {
    if k < |lobbies| && env(k).Env? {
      LostIffRaised(lobbies, k + 1, env);
    }
  }

  lemma NothingLostIff(d: Desk, cfg: Config, now: real, env: nat -> Env)
    requires cfg.Valid() && CleanTick(cfg, d, now)
    ensures |Members(LostIn(d, cfg, now, env))| == 0 <==> forall k :: 0 <= k < |Grouped(d, cfg, now).0| ==> env(k).Env?
  {
    var lobbies, lost := Grouped(d, cfg, now).0, LostIn(d, cfg, now, env);
    LostIffRaised(lobbies, 0, env);
    MembersEmptyIff(lost);
    forall k | 0 <= k < |lost| ensures lost[k] != [] {
      var j :| 0 <= j < |lobbies| && lobbies[j] == lost[k];
      LobbiesAreNotEmpty(d, cfg, now, j);
    }
  }

  /** Taking a fixed collection out of the books keeps them only if it is empty. */
  lemma OffBy(d: Desk, d': Desk, lost: multiset<Request>)
    requires forall q :: Off(d', q) == Off(d, q) - Weight(q, lost)
    ensures KeepsBooks(d, d') <==> |lost| == 0
    ensures Balanced(d) ==> (Balanced(d') <==> |lost| == 0)
  {
    BalancedIsZero(d);
    BalancedIsZero(d');
    assert Off(d', None) == Off(d, None) - |lost|;
  }

  /** Any desk whose grouping is clean: a placing pass keeps the books if and only if no
      listing raises before the last lobby is placed. */
  lemma PlaceKeepsBooksIff(d: Desk, cfg: Config, now: real, env: nat -> Env)
    requires cfg.Valid() && Ordered(d.rooms) && CleanTick(cfg, d, now)
    ensures var d', lobbies := Place(d, cfg, now, env).0, Grouped(d, cfg, now).0;
      && (KeepsBooks(d, d') <==> forall k :: 0 <= k < |lobbies| ==> env(k).Env?)
      && (Balanced(d) ==> (Balanced(d') <==> forall k :: 0 <= k < |lobbies| ==> env(k).Env?))
  {
    var d', lost := Place(d, cfg, now, env).0, Members(LostIn(d, cfg, now, env));
    forall q ensures Off(d', q) == Off(d, q) - Weight(q, lost) {
      PlacingBooks(d, cfg, now, env, q);
    }
    OffBy(d, d', lost);
    NothingLostIff(d, cfg, now, env);
  }

  // -------------------------------------------------------------------- other phases

  lemma ExpireBooks(d: Desk, now: real, maxAge: real, q: Option<Request>)
    ensures Off(Expire(d, now, maxAge), q) == Off(d, q)
  {
    ExpirySplits(d.queue, now, maxAge);
    var kept, aged := ByAge(d.queue, now, maxAge, false), ByAge(d.queue, now, maxAge, true);
    WeightAdds(q, multiset(kept), multiset(aged));
    WeightAdds(q, d.ledger.expired, multiset(aged));
    WeightOfLobby(q, kept);
    WeightOfLobby(q, aged);
    WeightOfLobby(q, d.queue);
  }

  lemma AcceptBooks(d: Desk, req: Request, q: Option<Request>)
    ensures Off(Accept(d, req), q) == Off(d, q)
  {
    assert multiset(d.queue + [req]) == multiset(d.queue) + multiset{req};
  }

  /** What a phase counts twice: lobbies served or given up by a retry pass that is cut
      short, because the old list stays in place. */
  ghost function DoubledBy(d: Desk, p: Phase): multiset<Request>
    requires Ordered(d.rooms)
  {
    if p.Retrying? && !Retry(d, p.env).completed then Members(Retry(d, p.env).gone) else multiset{}
  }

  /** What a phase loses: the lobbies formed but not reached by a placing pass cut short. */
  ghost function LostBy(cfg: Config, d: Desk, p: Phase): multiset<Request>
    requires cfg.Valid()
  {
    if p.Placing? then Members(LostIn(d, cfg, p.now, p.env)) else multiset{}
  }

  lemma QuietBooks(cfg: Config, d: Desk, p: Phase, q: Option<Request>)
    requires cfg.Valid() && Ordered(d.rooms) && !p.Retrying? && !p.Placing?
    ensures Off(Do(cfg, d, p).0, q) == Off(d, q)
  {
    match p
    case Accepting(req) => AcceptBooks(d, req, q);
    case Expiring(now) => ExpireBooks(d, now, cfg.MaxWait(), q);
    case _ =>
  }

  lemma PhaseBooks(cfg: Config, d: Desk, p: Phase, q: Option<Request>)
    requires cfg.Valid() && Ordered(d.rooms) && (p.Placing? ==> CleanTick(cfg, d, p.now))
    ensures Off(Do(cfg, d, p).0, q) == Off(d, q) + Weight(q, DoubledBy(d, p)) - Weight(q, LostBy(cfg, d, p))
  {
    match p
    case Retrying(env) => RetryBooks(d, env, q);
    case Placing(now, env) => PlacingBooks(d, cfg, now, env, q);
    case _ => QuietBooks(cfg, d, p, q);
  }

  // ---------------------------------------------------------------------- whole runs

  ghost function Doubled(trace: seq<Desk>, phases: seq<Phase>, i: nat): multiset<Request>
    requires i <= |phases| < |trace| && forall j :: 0 <= j < |trace| ==> Ordered(trace[j].rooms)
  {
    if i == 0 then multiset{} else Doubled(trace, phases, i - 1) + DoubledBy(trace[i - 1], phases[i - 1])
  }

  ghost function Lost(cfg: Config, trace: seq<Desk>, phases: seq<Phase>, i: nat): multiset<Request>
    requires cfg.Valid() && i <= |phases| < |trace|
  {
    if i == 0 then multiset{} else Lost(cfg, trace, phases, i - 1) + LostBy(cfg, trace[i - 1], phases[i - 1])
  }

  lemma RunIsOrdered(cfg: Config, trace: seq<Desk>, phases: seq<Phase>)
    requires cfg.Valid() && MatchmakerRuns.Run(cfg, trace, phases)
    ensures forall j :: 0 <= j < |trace| ==> Ordered(trace[j].rooms)
  {
    forall j | 0 <= j < |trace| ensures Ordered(trace[j].rooms) {
      RunStaysOrdered(cfg, trace, phases, j);
    }
  }

  /** Nobody is queued more often than accepted. */
  ghost predicate QueueWithinAccepted(d: Desk) {
    forall r :: multiset(d.queue)[r] <= d.ledger.accepted[r]
  }

  lemma {:induction false} PickUnusedWithin(s: seq<Request>, used: set<nat>, n: nat, r: Request)
    requires n <= |s|
    ensures multiset(Pick(s, Unused(used, n)))[r] <= multiset(s[..n])[r]
  {
    if n == 0 {
      assert Pick(s, Unused(used, n)) == [];
    } else {
      PickUnusedWithin(s, used, n - 1, r);
      CountSnoc(s[..n - 1], s[n - 1], s[..n], r);
      if n - 1 !in used {
        PickOneMore(s, used, n - 1);
        CountSnoc(Pick(s, Unused(used, n - 1)), s[n - 1], Pick(s, Unused(used, n)), r);
      } else {
        assert Unused(used, n) == Unused(used, n - 1);
      }
    }
  }

  lemma CountSnoc(s: seq<Request>, x: Request, longer: seq<Request>, r: Request)
    requires longer == s + [x]
    ensures multiset(longer)[r] == multiset(s)[r] + if r == x then 1 else 0
  {
  }

  lemma RestWithinQueue(d: Desk, cfg: Config, now: real, r: Request)
    requires cfg.Valid()
    ensures multiset(Grouped(d, cfg, now).1)[r] <= multiset(d.queue)[r]
  {
    var s := SortByElo(d.queue);
    PickUnusedWithin(s, FullScan(s, RulesAt(cfg, now)).used, |s|, r);
    assert s[..|s|] == s;
  }

  lemma {:induction false} RetryKeepsQueue(r: RetryResult, d: Desk, k: nat, still: seq<Waiting>, gone: seq<Lobby>, env: nat -> Env)
    requires Underway(r, d, k, still, gone, env)
    ensures r.desk.queue == d.queue
    decreases |d.pending| - k
  {
    if k == |d.pending| || env(k).ClaimRaises? {
      PassEnds(r, d, k, still, gone, env);
    } else {
      var d', still', gone' := RetryStep(r, d, k, still, gone, env);
      RetryKeepsQueue(r, d', k + 1, still', gone', env);
    }
  }

  lemma AcceptKeepsQueueWithin(d: Desk, req: Request)
    requires QueueWithinAccepted(d)
    ensures QueueWithinAccepted(Accept(d, req))
  {
    assert multiset(d.queue + [req]) == multiset(d.queue) + multiset{req};
  }

  lemma ExpireKeepsQueueWithin(d: Desk, now: real, maxAge: real)
    requires QueueWithinAccepted(d)
    ensures QueueWithinAccepted(Expire(d, now, maxAge))
  {
    ExpirySplits(d.queue, now, maxAge);
    var kept, aged := ByAge(d.queue, now, maxAge, false), ByAge(d.queue, now, maxAge, true);
    forall r ensures multiset(kept)[r] <= d.ledger.accepted[r] {
      assert (multiset(kept) + multiset(aged))[r] == multiset(d.queue)[r];
    }
  }

  lemma PlaceKeepsQueueWithin(d: Desk, cfg: Config, now: real, env: nat -> Env)
    requires cfg.Valid() && Ordered(d.rooms) && QueueWithinAccepted(d)
    ensures QueueWithinAccepted(Place(d, cfg, now, env).0)
  {
    var (lobbies, rest) := Grouped(d, cfg, now);
    var r := PlaceFrom(d.(queue := rest), lobbies, 0, env);
    PlaceBooks(d.(queue := rest), lobbies, 0, env, r, None);
    assert Place(d, cfg, now, env) == r;
    forall q ensures multiset(r.0.queue)[q] <= r.0.ledger.accepted[q] {
      RestWithinQueue(d, cfg, now, q);
    }
  }

  lemma PhaseKeepsQueueWithin(cfg: Config, d: Desk, p: Phase)
    requires cfg.Valid() && Ordered(d.rooms) && QueueWithinAccepted(d)
    ensures QueueWithinAccepted(Do(cfg, d, p).0)
  {
    match p
    case Accepting(req) => AcceptKeepsQueueWithin(d, req);
    case Expiring(now) => ExpireKeepsQueueWithin(d, now, cfg.MaxWait());
    case Retrying(env) => RetryKeepsQueue(Retry(d, env), d, 0, [], [], env);
    case Placing(now, env) => PlaceKeepsQueueWithin(d, cfg, now, env);
    case Others(_) =>
  }

  lemma {:induction false} RunQueueWithin(cfg: Config, trace: seq<Desk>, phases: seq<Phase>, i: nat)
    requires cfg.Valid() && MatchmakerRuns.Run(cfg, trace, phases) && i < |trace|
    ensures QueueWithinAccepted(trace[i])
  {
    if i > 0 {
      RunQueueWithin(cfg, trace, phases, i - 1);
      RunStaysOrdered(cfg, trace, phases, i - 1);
      assert Follows(cfg, trace[i - 1], phases[i - 1], trace[i - 1 + 1]);
      PhaseKeepsQueueWithin(cfg, trace[i - 1], phases[i - 1]);
    }
  }

  /** No rollback can go wrong: pairs are enough for a lobby, or no request was accepted twice. */
  ghost predicate SafeRollback(cfg: Config, d: Desk) {
    cfg.lobbyMin == 2 || forall r :: d.ledger.accepted[r] <= 1
  }

  lemma MultiplicityOneIsDistinct(s: seq<Request>)
    requires forall r :: multiset(s)[r] <= 1
    ensures Distinct(s)
  {
    forall i, j | 0 <= i < j < |s| ensures s[i] != s[j] {
      assert s == s[..j] + [s[j]] + s[j + 1..];
      assert s[i] in s[..j];
      assert multiset(s) == multiset(s[..j]) + multiset{s[j]} + multiset(s[j + 1..]);
      assert multiset(s)[s[i]] <= 1;
    }
  }

  lemma SafeRollbackIsClean(cfg: Config, d: Desk, now: real)
    requires cfg.Valid() && QueueWithinAccepted(d) && SafeRollback(cfg, d)
    ensures CleanTick(cfg, d, now)
  {
    var s := SortByElo(d.queue);
    if cfg.lobbyMin != 2 {
      forall r ensures multiset(s)[r] <= 1 {
        assert multiset(s)[r] == multiset(d.queue)[r] <= d.ledger.accepted[r] <= 1;
      }
      MultiplicityOneIsDistinct(s);
    }
    CleanWhenPairsOrDistinct(s, RulesAt(cfg, now), 0);
  }

  lemma SafeRollbackEarlier(cfg: Config, d: Desk, p: Phase, d': Desk)
    requires cfg.Valid() && Follows(cfg, d, p, d') && SafeRollback(cfg, d')
    ensures SafeRollback(cfg, d)
  {
    if cfg.lobbyMin != 2 {
      forall r ensures d.ledger.accepted[r] <= 1 {
        assert Do(cfg, d, p).0.ledger.accepted[r] <= 1;
      }
    }
  }

  lemma OneMorePhase(cfg: Config, d: Desk, p: Phase, d': Desk, q: Option<Request>, doubled: multiset<Request>,
                     lost: multiset<Request>)
    requires cfg.Valid() && Follows(cfg, d, p, d') && QueueWithinAccepted(d) && SafeRollback(cfg, d)
    requires Off(d, q) == Weight(q, doubled) - Weight(q, lost)
    ensures Off(d', q)
            == Weight(q, doubled + DoubledBy(d, p)) - Weight(q, lost + LostBy(cfg, d, p))
  {
    if p.Placing? {
      SafeRollbackIsClean(cfg, d, p.now);
    }
    PhaseBooks(cfg, d, p, q);
    WeightAdds(q, doubled, DoubledBy(d, p));
    WeightAdds(q, lost, LostBy(cfg, d, p));
  }

  lemma {:induction false} RunBooks(cfg: Config, trace: seq<Desk>, phases: seq<Phase>, i: nat, d: Desk, q: Option<Request>)
    requires cfg.Valid() && MatchmakerRuns.Run(cfg, trace, phases) && i < |trace| && d == trace[i] && SafeRollback(cfg, d)
    requires forall j :: 0 <= j < |trace| ==> Ordered(trace[j].rooms)
    ensures Off(d, q) == Weight(q, Doubled(trace, phases, i)) - Weight(q, Lost(cfg, trace, phases, i))
  {
    if i > 0 {
      var before, p := trace[i - 1], phases[i - 1];
      assert Follows(cfg, before, p, trace[i - 1 + 1]);
      SafeRollbackEarlier(cfg, before, p, d);
      RunBooks(cfg, trace, phases, i - 1, before, q);
      RunQueueWithin(cfg, trace, phases, i - 1);
      OneMorePhase(cfg, before, p, d, q, Doubled(trace, phases, i - 1), Lost(cfg, trace, phases, i - 1));
    }
  }

  /** Every run, with exceptions at any listing and other processes at the pool: the
      accepted requests, plus those of lobbies that a retry pass served or gave up before it
      was cut short, are exactly those in the six places plus those of lobbies that a
      placing pass was cut short before; and the gauge is off by the same requests. */
  lemma LedgerOfEveryRun(cfg: Config, trace: seq<Desk>, phases: seq<Phase>, i: nat)
    requires cfg.Valid() && MatchmakerRuns.Run(cfg, trace, phases) && i < |trace| && SafeRollback(cfg, trace[i])
    ensures forall j :: 0 <= j < |trace| ==> Ordered(trace[j].rooms)
    ensures var d, l, waiting := trace[i], trace[i].ledger, InLobbies(trace[i].pending);
            var doubled, lost := Doubled(trace, phases, i), Lost(cfg, trace, phases, i);
      && l.accepted + doubled
         == (multiset(d.queue) + l.expired) + (waiting + l.notified + l.exhausted + l.failed) + lost
      && d.queueDepth + |doubled| == |d.queue| + |waiting| + |l.exhausted| + |l.failed| + |lost|
      && (Balanced(d) <==> doubled == lost)
  {
    RunIsOrdered(cfg, trace, phases);
    var d, doubled, lost := trace[i], Doubled(trace, phases, i), Lost(cfg, trace, phases, i);
    forall q ensures Off(d, q) == Weight(q, doubled) - Weight(q, lost) {
      RunBooks(cfg, trace, phases, i, d, q);
    }
    SamePlaces(d, doubled, lost);
    BalancedIsZero(d);
    if forall q :: Off(d, q) == 0 {
      forall r: Request ensures doubled[r] == lost[r] {
        assert Off(d, Some(r)) == Weight(Some(r), doubled) - Weight(Some(r), lost);
      }
      assert doubled == lost;
    }
  }

  /** No listing raises in this pass. */
  ghost predicate NoneRaises(cfg: Config, d: Desk, p: Phase)
    requires cfg.Valid()
  {
    match p
    case Retrying(env) => NoListingRaises(env, 0, |d.pending|)
    case Placing(now, env) => NoListingRaises(env, 0, |Grouped(d, cfg, now).0|)
    case _ => true
  }

  ghost predicate Uncut(cfg: Config, trace: seq<Desk>, phases: seq<Phase>, i: nat)
    requires cfg.Valid() && i <= |phases| < |trace|
  {
    forall j: nat :: j < i ==> NoneRaises(cfg, trace[j], phases[j])
  }

  lemma {:induction false} UncutLosesNothing(cfg: Config, trace: seq<Desk>, phases: seq<Phase>, i: nat)
    requires cfg.Valid() && i <= |phases| < |trace| && forall j :: 0 <= j < |trace| ==> Ordered(trace[j].rooms)
    requires Uncut(cfg, trace, phases, i)
    ensures Doubled(trace, phases, i) == multiset{} && Lost(cfg, trace, phases, i) == multiset{}
  {
    if i > 0 {
      UncutLosesNothing(cfg, trace, phases, i - 1);
      var d, p := trace[i - 1], phases[i - 1];
      assert NoneRaises(cfg, d, p);
      NoneRaisesLosesNothing(cfg, d, p);
    }
  }

  lemma NoneRaisesLosesNothing(cfg: Config, d: Desk, p: Phase)
    requires cfg.Valid() && Ordered(d.rooms) && NoneRaises(cfg, d, p)
    ensures DoubledBy(d, p) == multiset{} && LostBy(cfg, d, p) == multiset{}
  {
    match p
    case Retrying(env) => RetryUndoneIff(d, env, true);
    case Placing(now, env) => LostIffRaised(Grouped(d, cfg, now).0, 0, env);
    case _ =>
  }

  /** In a run that no exception cuts into, the ledger balances at every moment. */
  lemma LedgerBalances(cfg: Config, trace: seq<Desk>, phases: seq<Phase>, i: nat)
    requires cfg.Valid() && MatchmakerRuns.Run(cfg, trace, phases) && i < |trace| && SafeRollback(cfg, trace[i])
    requires Uncut(cfg, trace, phases, i)
    ensures Balanced(trace[i])
  {
    LedgerOfEveryRun(cfg, trace, phases, i);
    UncutLosesNothing(cfg, trace, phases, i);
  }

  // ----------------------------------------------------------- the two ways to go wrong

  /** A listing that raises at the second entry, after the first lobby got a room: the lobby
      is announced and stays on the list. */
  lemma ServedLobbyStaysListed(d: Desk, env: nat -> Env)
    requires Ordered(d.rooms) && |d.pending| >= 2 && FreeRooms(d.rooms) != []
    requires Calm(env(0)) && env(1).ClaimRaises? && d.pending[0].lobby != [] && Balanced(d)
    ensures var d' := Retry(d, env).desk;
      && d'.pending == d.pending && !Balanced(d')
      && d'.assignments == d.assignments + [Assignment(d.pending[0].lobby, FreeRooms(d.rooms)[0])]
  {
    ClaimTakesFirstFree(d.rooms, 0);
    var w := d.pending[0];
    var (d1, stays) := RetryOne(d, w, env(0));
    assert AfterOthers(d.rooms, []) == d.rooms;
    assert stays == None;
    assert [] + [w.lobby] == [w.lobby];
    assert Retry(d, env) == RetryFrom(d1, 1, [], [w.lobby], env);
    assert Retry(d, env).gone[0] != [];
    RetryKeepsBooksIff(d, env);
  }

  /** A listing that raises at the first new lobby: every lobby of the tick is gone. */
  lemma UnplacedLobbiesVanish(d: Desk, cfg: Config, now: real, env: nat -> Env)
    requires cfg.Valid() && Ordered(d.rooms) && CleanTick(cfg, d, now) && Balanced(d)
    requires env(0).ClaimRaises? && Grouped(d, cfg, now).0 != []
    ensures Place(d, cfg, now, env).0 == d.(queue := Grouped(d, cfg, now).1)
    ensures !Balanced(Place(d, cfg, now, env).0)
  {
    PlaceKeepsBooksIff(d, cfg, now, env);
  }

  // ------------------------------------------------------------------- rooms and lobbies

  /** An announced lobby keeps its room and is recorded with it; after a failed
      announcement the room is free again exactly if its release worked, and no other
      room is touched. */
  lemma AnnouncedOrReleased(d: Desk, lobby: Lobby, room: RoomId, env: Env, other: RoomId)
    requires env.Env? && Ordered(d.rooms) && StatusOf(d.rooms, room) == Some(InUse)
    ensures var d' := Assign(d, lobby, room, env);
            && d'.assignments == d.assignments + (if env.published then [Assignment(lobby, room)] else [])
            && (StatusOf(d'.rooms, room) == Some(Available) <==> !env.published && env.released)
            && (other != room ==> StatusOf(d'.rooms, other) == StatusOf(d.rooms, other))
  {
    PutAndDeleteAreLocal(d.rooms, RoomPool.Entry(room, Available), room);
    PutAndDeleteAreLocal(d.rooms, RoomPool.Entry(room, Available), other);
  }
}
