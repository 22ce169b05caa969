// How long a lobby waits for a room: what one retry pass does for it, and its fate over a
// whole run, from the pass that put it on the list to its sixteenth failure.
module MatchmakerRetries {
  import opened Options
  import opened Matching
  import opened RoomPool
  import opened Matchmaker
  import opened MatchmakerRuns

  // --------------------------------------------------------------- one retry pass

  ghost predicate Successor(ws: seq<Waiting>, w: Waiting) {
    exists v <- ws :: v.retry < MAX_SCALE_RETRIES && w == Waiting(v.lobby, v.retry + 1)
  }

  lemma {:induction false} SurvivorsFrom(r: RetryResult, d: Desk, k: nat, still: seq<Waiting>, gone: seq<Lobby>,
                                         env: nat -> Env)
    requires Underway(r, d, k, still, gone, env) && r.completed
    requires forall w <- still :: Successor(d.pending, w)
    ensures forall w <- r.desk.pending :: Successor(d.pending, w) && 1 <= w.retry <= MAX_SCALE_RETRIES
    decreases |d.pending| - k
  {
    if k == |d.pending| || env(k).ClaimRaises? {
      PassEnds(r, d, k, still, gone, env);
    } else {
      var d', still', gone' := RetryStep(r, d, k, still, gone, env);
      SurvivorsFrom(r, d', k + 1, still', gone', env);
    }
  }

  /** Whatever happens outside, a completed retry pass leaves only lobbies that were on
      the list, one retry older and within the limit: the rest of their retries shrinks. */
  lemma SurvivorsAge(d: Desk, env: nat -> Env)
    requires Ordered(d.rooms) && NoListingRaises(env, 0, |d.pending|)
    ensures forall w <- Retry(d, env).desk.pending :: Successor(d.pending, w) && 1 <= w.retry <= MAX_SCALE_RETRIES
  {
    RetryUndoneIff(d, env, false);
    SurvivorsFrom(Retry(d, env), d, 0, [], [], env);
  }

  /** What a pass does for the lobby at position j of the list: nothing if a listing raises
      first; otherwise what its claim returns, and how many before it stay on the list. */
  datatype Chance = NoChance | Chance(room: Option<RoomId>, position: nat)

  function ChanceFrom(d: Desk, k: nat, position: nat, env: nat -> Env, j: nat): Chance
    requires k <= j < |d.pending| && Ordered(d.rooms)
    decreases j - k
  {
    if env(k).ClaimRaises? then NoChance
    else if k == j then Chance(Claim(d.rooms, env(k)).0, position)
    else
      var (d', stays) := RetryOne(d, d.pending[k], env(k));
      ChanceFrom(d', k + 1, if stays.Some? then position + 1 else position, env, j)
  }

  function ChanceOf(d: Desk, env: nat -> Env, j: nat): Chance
    requires j < |d.pending| && Ordered(d.rooms)
  {
    ChanceFrom(d, 0, 0, env, j)
  }

  /** The pass has got to entry k, and position j is still to come. */
  ghost predicate Coming(c: Chance, d: Desk, k: nat, position: nat, env: nat -> Env, j: nat) {
    k <= j < |d.pending| && Ordered(d.rooms) && c == ChanceFrom(d, k, position, env, j)
  }

  lemma ChanceHere(c: Chance, d: Desk, j: nat, position: nat, env: nat -> Env)
    requires Coming(c, d, j, position, env, j) && env(j).Env?
    ensures c == Chance(Claim(d.rooms, env(j)).0, position)
  {
  }

  lemma ChanceLater(c: Chance, d: Desk, k: nat, position: nat, env: nat -> Env, j: nat, d': Desk, stays: Option<Waiting>)
    requires Coming(c, d, k, position, env, j) && k < j && env(k).Env?
    requires (d', stays) == RetryOne(d, d.pending[k], env(k))
    ensures Coming(c, d', k + 1, if stays.Some? then position + 1 else position, env, j)
  {
  }

  /** The lobby has been announced, or its announcement has failed. */
  ghost predicate Assigned(d: Desk, lobby: Lobby) {
    (exists room :: Assignment(lobby, room) in d.assignments) || multiset(lobby) <= d.ledger.failed
  }

  /** What is assigned or given up stays so. */
  ghost predicate Grows(d: Desk, d': Desk) {
    && d.assignments <= d'.assignments && d.ledger.failed <= d'.ledger.failed
    && d.ledger.exhausted <= d'.ledger.exhausted
  }

  lemma AssignedStays(d: Desk, d': Desk, lobby: Lobby)
    requires Grows(d, d') && Assigned(d, lobby)
    ensures Assigned(d', lobby)
  {
    if room :| Assignment(lobby, room) in d.assignments {
      assert Assignment(lobby, room) in d'.assignments;
    }
  }

  lemma AssignGrows(d: Desk, lobby: Lobby, room: RoomId, env: Env)
    requires Ordered(d.rooms) && env.Env?
    ensures Grows(d, Assign(d, lobby, room, env)) && Assigned(Assign(d, lobby, room, env), lobby)
  {
    var d' := Assign(d, lobby, room, env);
    if env.published {
      assert d'.assignments[|d.assignments|] == Assignment(lobby, room);
    }
  }

  lemma TurnGrows(d: Desk, w: Waiting, env: Env)
    requires Ordered(d.rooms) && env.Env?
    ensures var (d', stays) := RetryOne(d, w, env);
      && Grows(d, d')
      && (Claim(d.rooms, env).0.Some? ==> Assigned(d', w.lobby))
      && (stays.None? && Claim(d.rooms, env).0.None? ==> multiset(w.lobby) <= d'.ledger.exhausted)
  {
    var (room, rooms) := Claim(d.rooms, env);
    if room.Some? {
      AssignGrows(d.(rooms := rooms), w.lobby, room.value, env);
    }
  }

  /** What stays on the list stays in place, and nothing assigned or given up comes back. */
  lemma {:induction false} PassKeeps(r: RetryResult, d: Desk, k: nat, still: seq<Waiting>, gone: seq<Lobby>,
                                     env: nat -> Env)
    requires Underway(r, d, k, still, gone, env)
    ensures Grows(d, r.desk) && (r.completed ==> still <= r.desk.pending)
    decreases |d.pending| - k
  {
    if k == |d.pending| || env(k).ClaimRaises? {
      PassEnds(r, d, k, still, gone, env);
    } else {
      var (d', stays) := RetryOne(d, d.pending[k], env(k));
      TurnGrows(d, d.pending[k], env(k));
      UnderwayNext(r, d, k, still, gone, env, d', stays);
      var still' := if stays.Some? then still + [stays.value] else still;
      PassKeeps(r, d', k + 1, still', if stays.Some? then gone else gone + [d.pending[k].lobby], env);
      assert still <= still';
    }
  }

  /** A lobby whose claim finds a room is assigned; one turned away stays, one retry older, or
      has no retry left and is given up. */
  ghost predicate Outcome(r: RetryResult, w: Waiting, c: Chance) {
    && c.Chance?
    && if c.room.Some? then Assigned(r.desk, w.lobby)
       else if w.retry < MAX_SCALE_RETRIES
       then c.position < |r.desk.pending| && r.desk.pending[c.position] == Waiting(w.lobby, w.retry + 1)
       else multiset(w.lobby) <= r.desk.ledger.exhausted
  }

  lemma OutcomeHere(r: RetryResult, d: Desk, j: nat, still: seq<Waiting>, gone: seq<Lobby>, env: nat -> Env, c: Chance)
    requires Underway(r, d, j, still, gone, env) && r.completed && Coming(c, d, j, |still|, env, j) && env(j).Env?
    ensures Outcome(r, d.pending[j], c)
  {
    var w := d.pending[j];
    ChanceHere(c, d, j, |still|, env);
    var (d', stays) := RetryOne(d, w, env(j));
    TurnGrows(d, w, env(j));
    TurnOf(d, w, env(j));
    UnderwayNext(r, d, j, still, gone, env, d', stays);
    if stays.Some? {
      assert stays.value == Waiting(w.lobby, w.retry + 1);
      PassKeeps(r, d', j + 1, still + [stays.value], gone, env);
      assert (still + [stays.value])[|still|] == r.desk.pending[|still|];
    } else {
      PassKeeps(r, d', j + 1, still, gone + [w.lobby], env);
      if c.room.Some? {
        AssignedStays(d', r.desk, w.lobby);
      }
    }
  }

  lemma NotRaised(r: RetryResult, d: Desk, k: nat, still: seq<Waiting>, gone: seq<Lobby>, env: nat -> Env)
    requires Underway(r, d, k, still, gone, env) && r.completed && k < |d.pending|
    ensures env(k).Env?
  {
  }

  lemma ChanceStep(r: RetryResult, d: Desk, k: nat, still: seq<Waiting>, gone: seq<Lobby>, env: nat -> Env, j: nat,
                   c: Chance)
    returns (d': Desk, still': seq<Waiting>, gone': seq<Lobby>)
    requires Underway(r, d, k, still, gone, env) && k < j && Coming(c, d, k, |still|, env, j) && env(k).Env?
    ensures d'.pending == d.pending && Underway(r, d', k + 1, still', gone', env)
    ensures Coming(c, d', k + 1, |still'|, env, j)
  {
    var (next, stays) := RetryOne(d, d.pending[k], env(k));
    UnderwayNext(r, d, k, still, gone, env, next, stays);
    ChanceLater(c, d, k, |still|, env, j, next, stays);
    d' := next;
    still' := if stays.Some? then still + [stays.value] else still;
    gone' := if stays.Some? then gone else gone + [d.pending[k].lobby];
  }

  lemma {:induction false} OutcomeOf(r: RetryResult, d: Desk, k: nat, still: seq<Waiting>, gone: seq<Lobby>,
                                     env: nat -> Env, j: nat, c: Chance)
    requires Underway(r, d, k, still, gone, env) && r.completed && Coming(c, d, k, |still|, env, j)
    ensures Outcome(r, d.pending[j], c)
    decreases j - k
  {
    NotRaised(r, d, k, still, gone, env);
    if k == j {
      OutcomeHere(r, d, j, still, gone, env, c);
    } else {
      var d', still', gone' := ChanceStep(r, d, k, still, gone, env, j, c);
      OutcomeOf(r, d', k + 1, still', gone', env, j, c);
    }
  }

  /** What a completed pass does for each lobby of the list is what its claim returns. */
  lemma PassOutcome(d: Desk, env: nat -> Env, j: nat)
    requires Ordered(d.rooms) && j < |d.pending| && NoListingRaises(env, 0, |d.pending|)
    ensures Outcome(Retry(d, env), d.pending[j], ChanceOf(d, env, j))
  {
    RetryUndoneIff(d, env, false);
    OutcomeOf(Retry(d, env), d, 0, [], [], env, j, ChanceOf(d, env, j));
  }

  // ---------------------------------------------------------------- over a whole run

  /** A lobby that was put on the list, after so many failures: it stands at a position, or
      has been assigned a room, or has been given up. */
  datatype Fate = Listed(position: nat, failures: nat) | Served(failures: nat) | GivenUp(failures: nat)

  /** A retry pass in which no listing raises. */
  ghost predicate FullPass(d: Desk, p: Phase) {
    p.Retrying? && NoListingRaises(p.env, 0, |d.pending|)
  }

  ghost predicate Stands(d: Desk, f: Fate) {
    Ordered(d.rooms) && f.Listed? && f.position < |d.pending|
  }

  /** What a phase makes of it: only a retry pass in which no listing raises moves it, and it
      fails there if the claim of its turn returns nothing. */
  ghost function FateAfter(d: Desk, p: Phase, f: Fate): Fate
  {
    if !FullPass(d, p) || !Stands(d, f) then f
    else
      var c := ChanceOf(d, p.env, f.position);
      if !c.Chance? || c.room.Some? then Served(f.failures)
      else if d.pending[f.position].retry < MAX_SCALE_RETRIES then Listed(c.position, f.failures + 1)
      else GivenUp(f.failures + 1)
  }

  /** The list and the books agree with the fate: a listed lobby has failed at most fifteen
      times, and exactly the sixteenth failure gives it up. */
  ghost predicate Agrees(d: Desk, lobby: Lobby, f: Fate) {
    match f
    case Listed(position, failures) =>
      failures <= MAX_SCALE_RETRIES && position < |d.pending| && d.pending[position] == Waiting(lobby, failures)
    case Served(failures) => failures <= MAX_SCALE_RETRIES && Assigned(d, lobby)
    case GivenUp(failures) => failures == MAX_SCALE_RETRIES + 1 && multiset(lobby) <= d.ledger.exhausted
  }

  lemma {:induction false} PlacingAppends(d: Desk, lobbies: seq<Lobby>, k: nat, env: nat -> Env, r: Desk)
    requires k <= |lobbies| && Ordered(d.rooms) && r == PlaceFrom(d, lobbies, k, env).0
    ensures d.pending <= r.pending && Grows(d, r)
    ensures forall i :: |d.pending| <= i < |r.pending| ==> r.pending[i].retry == 0
    decreases |lobbies| - k
  {
    if k < |lobbies| && !env(k).ClaimRaises? {
      var d' := PlaceOne(d, lobbies[k], env(k));
      PlaceGrows(d, lobbies[k], env(k));
      PlacingAppends(d', lobbies, k + 1, env, r);
      forall i | |d.pending| <= i < |r.pending| ensures r.pending[i].retry == 0 {
        if i < |d'.pending| {
          assert r.pending[i] == d'.pending[i];
        }
      }
    }
  }

  lemma PlaceGrows(d: Desk, lobby: Lobby, env: Env)
    requires Ordered(d.rooms) && env.Env?
    ensures var d' := PlaceOne(d, lobby, env);
      && Grows(d, d') && d.pending <= d'.pending
      && forall i :: |d.pending| <= i < |d'.pending| ==> d'.pending[i].retry == 0
  {
    var (room, rooms) := Claim(d.rooms, env);
    if room.Some? {
      AssignGrows(d.(rooms := rooms), lobby, room.value, env);
    }
  }

  lemma PhaseGrows(cfg: Config, d: Desk, p: Phase)
    requires cfg.Valid() && Ordered(d.rooms)
    ensures var d' := Do(cfg, d, p).0;
      && Grows(d, d')
      && (!FullPass(d, p) ==> d.pending <= d'.pending)
      && (p.Placing? ==> forall i :: |d.pending| <= i < |d'.pending| ==> d'.pending[i].retry == 0)
  {
    match p
    case Retrying(env) =>
      PassKeeps(Retry(d, env), d, 0, [], [], env);
      RetryUndoneIff(d, env, false);
      CutPassKeepsList(Retry(d, env), d, 0, [], [], env);
    case Placing(now, env) =>
      var (lobbies, rest) := Grouped(d, cfg, now);
      PlacingAppends(d.(queue := rest), lobbies, 0, env, Do(cfg, d, p).0);
    case _ =>
  }

  lemma {:induction false} CutPassKeepsList(r: RetryResult, d: Desk, k: nat, still: seq<Waiting>, gone: seq<Lobby>,
                                            env: nat -> Env)
    requires Underway(r, d, k, still, gone, env)
    ensures r.completed || r.desk.pending == d.pending
    decreases |d.pending| - k
  {
    if k == |d.pending| || env(k).ClaimRaises? {
      PassEnds(r, d, k, still, gone, env);
    } else {
      var d', still', gone' := PassStep(r, d, k, still, gone, env);
      CutPassKeepsList(r, d', k + 1, still', gone', env);
    }
  }

  lemma FateGoesOn(cfg: Config, d: Desk, p: Phase, d': Desk, lobby: Lobby, f: Fate)
    requires cfg.Valid() && Follows(cfg, d, p, d') && Agrees(d, lobby, f)
    ensures Agrees(d', lobby, FateAfter(d, p, f))
  {
    PhaseGrows(cfg, d, p);
    if f.Served? {
      AssignedStays(d, d', lobby);
    } else if f.Listed? && FullPass(d, p) {
      PassOutcome(d, p.env, f.position);
    }
  }

  /** In this run, phase `placed` is a placing pass that puts a lobby at position j. */
  ghost predicate Puts(cfg: Config, trace: seq<Desk>, phases: seq<Phase>, placed: nat, j: nat)
    requires cfg.Valid()
  {
    && MatchmakerRuns.Run(cfg, trace, phases) && placed < |phases| && phases[placed].Placing?
    && |trace[placed].pending| <= j < |trace[placed + 1].pending|
  }

  lemma PutIsNew(cfg: Config, trace: seq<Desk>, phases: seq<Phase>, placed: nat, j: nat)
    requires cfg.Valid() && Puts(cfg, trace, phases, placed, j)
    ensures trace[placed + 1].pending[j].retry == 0
  {
    assert Follows(cfg, trace[placed], phases[placed], trace[placed + 1]);
    PhaseGrows(cfg, trace[placed], phases[placed]);
  }

  /** The fate, at moment i, of the lobby that stood at position j after phase `placed`. */
  ghost function FateOf(trace: seq<Desk>, phases: seq<Phase>, placed: nat, j: nat, i: nat): Fate
    requires placed < i <= |phases| < |trace|
    decreases i
  {
    if i == placed + 1 then Listed(j, 0)
    else FateAfter(trace[i - 1], phases[i - 1], FateOf(trace, phases, placed, j, i - 1))
  }

  ghost predicate FollowsAt(cfg: Config, trace: seq<Desk>, phases: seq<Phase>, k: nat)
    requires cfg.Valid() && k < |phases| < |trace|
  {
    Follows(cfg, trace[k], phases[k], trace[k + 1])
  }

  lemma {:induction false} FateAgrees(cfg: Config, trace: seq<Desk>, phases: seq<Phase>, placed: nat, j: nat, i: nat, f: Fate)
    requires cfg.Valid() && placed < i <= |phases| < |trace| && f == FateOf(trace, phases, placed, j, i)
    requires forall k: nat :: placed < k < i ==> FollowsAt(cfg, trace, phases, k)
    requires j < |trace[placed + 1].pending| && trace[placed + 1].pending[j].retry == 0
    ensures Agrees(trace[i], trace[placed + 1].pending[j].lobby, f)
    decreases i
  {
    if i > placed + 1 {
      var before := FateOf(trace, phases, placed, j, i - 1);
      FateAgrees(cfg, trace, phases, placed, j, i - 1, before);
      assert FollowsAt(cfg, trace, phases, i - 1);
      FateGoesOn(cfg, trace[i - 1], phases[i - 1], trace[i], trace[placed + 1].pending[j].lobby, before);
    }
  }

  ghost function FullPasses(trace: seq<Desk>, phases: seq<Phase>, from: nat, i: nat): nat
    requires from <= i <= |phases| < |trace|
    decreases i
  {
    if i == from then 0
    else FullPasses(trace, phases, from, i - 1) + if FullPass(trace[i - 1], phases[i - 1]) then 1 else 0
  }

  /** A listed lobby has failed in every full pass. */
  ghost predicate Counts(f: Fate, passes: nat) {
    f.failures <= passes && (f.Listed? ==> f.failures == passes)
  }

  lemma FateCounts(d: Desk, p: Phase, f: Fate, passes: nat)
    requires Counts(f, passes) && (f.Listed? ==> Stands(d, f))
    ensures Counts(FateAfter(d, p, f), passes + if FullPass(d, p) then 1 else 0)
  {
  }

  lemma {:induction false} FailsInEachPass(trace: seq<Desk>, phases: seq<Phase>, placed: nat, j: nat, i: nat)
    requires placed < i <= |phases| < |trace|
    requires forall k: nat :: placed < k < i ==>
      var f := FateOf(trace, phases, placed, j, k); f.Listed? ==> Stands(trace[k], f)
    ensures Counts(FateOf(trace, phases, placed, j, i), FullPasses(trace, phases, placed + 1, i))
    decreases i
  {
    if i > placed + 1 {
      FailsInEachPass(trace, phases, placed, j, i - 1);
      FateCounts(trace[i - 1], phases[i - 1], FateOf(trace, phases, placed, j, i - 1),
                 FullPasses(trace, phases, placed + 1, i - 1));
    }
  }

  /** In every run, from the pass that puts a lobby on the list: as long as it is listed, it
      has failed in each full retry pass since, at most fifteen times, and this is the count
      the list shows; it leaves the list for a room after at most fifteen failures, or is
      given up at exactly the sixteenth; so after sixteen full passes it is listed no more. */
  lemma SixteenthFailureEndsRetries(cfg: Config, trace: seq<Desk>, phases: seq<Phase>, placed: nat, j: nat, i: nat)
    requires cfg.Valid() && Puts(cfg, trace, phases, placed, j) && placed < i < |trace|
    ensures var f, passes := FateOf(trace, phases, placed, j, i), FullPasses(trace, phases, placed + 1, i);
      var lobby := trace[placed + 1].pending[j].lobby;
      && (f.Listed? ==> f.failures == passes <= 15
                        && f.position < |trace[i].pending| && trace[i].pending[f.position] == Waiting(lobby, passes))
      && (f.Served? ==> f.failures <= 15 && Assigned(trace[i], lobby))
      && (f.GivenUp? ==> f.failures == 16 && multiset(lobby) <= trace[i].ledger.exhausted)
      && (passes > 15 ==> !f.Listed?)
  {
    PutIsNew(cfg, trace, phases, placed, j);
    forall k: nat | placed < k <= i
      ensures var f := FateOf(trace, phases, placed, j, k);
        Agrees(trace[k], trace[placed + 1].pending[j].lobby, f) && (f.Listed? ==> Stands(trace[k], f))
    {
      RunStaysOrdered(cfg, trace, phases, k);
      FateAgrees(cfg, trace, phases, placed, j, k, FateOf(trace, phases, placed, j, k));
    }
    FailsInEachPass(trace, phases, placed, j, i);
  }
}
