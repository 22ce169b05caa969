// Properties of whole runs of the matchmaker: what one pass does entry by entry, the
// scale-up deficit, and which lobbies get rooms first.
module MatchmakerRuns {
  import opened Options
  import opened Matching
  import opened Grouping
  import opened MatchQuality
  import opened RoomPool
  import opened Matchmaker

  // ----------------------------------------------------------------------- runs

  /** `Others` are the other processes at the room pool: game rooms register and go away,
      other workers claim. */
  datatype Phase =
    | Accepting(req: Request)
    | Expiring(now: real)
    | Retrying(env: nat -> Env)
    | Placing(now: real, env: nat -> Env)
    | Others(changes: seq<Change>)

  ghost function Do(cfg: Config, d: Desk, p: Phase): (r: (Desk, bool))
    requires cfg.Valid() && Ordered(d.rooms)
    ensures Ordered(r.0.rooms)
  {
    match p
    case Accepting(req) => (Accept(d, req), true)
    case Expiring(now) => (Expire(d, now, cfg.MaxWait()), true)
    case Retrying(env) => (Retry(d, env).desk, Retry(d, env).completed)
    case Placing(now, env) => Place(d, cfg, now, env)
    case Others(changes) => (d.(rooms := AfterOthers(d.rooms, changes)), true)
  }

  ghost predicate Follows(cfg: Config, d: Desk, p: Phase, d': Desk)
    requires cfg.Valid()
  {
    Ordered(d.rooms) && Do(cfg, d, p).0 == d'
  }

  ghost predicate Start(d: Desk) {
    && d.queue == [] && d.pending == [] && d.deficit == 0 && d.queueDepth == 0
    && d.ledger == Ledger(multiset{}, multiset{}, multiset{}, multiset{}, multiset{})
    && Ordered(d.rooms)
  }

  /** The phases in any order, which includes acceptances and pool changes between all of
      them; a phase may be cut short by an exception. */
  ghost predicate Run(cfg: Config, trace: seq<Desk>, phases: seq<Phase>)
    requires cfg.Valid()
  {
    && |trace| == |phases| + 1 && Start(trace[0])
    && forall i :: 0 <= i < |phases| ==> Follows(cfg, trace[i], phases[i], trace[i + 1])
  }

  lemma {:induction false} RunStaysOrdered(cfg: Config, trace: seq<Desk>, phases: seq<Phase>, i: nat)
    requires cfg.Valid() && Run(cfg, trace, phases) && i < |trace|
    ensures Ordered(trace[i].rooms)
  {
    if i > 0 {
      assert Follows(cfg, trace[i - 1], phases[i - 1], trace[i - 1 + 1]);
    }
  }

  // ---------------------------------------------------------- what a pass takes off

  /** The lobbies that a placing pass never reaches, because a listing raises first. */
  function LostFrom(lobbies: seq<Lobby>, k: nat, env: nat -> Env): seq<Lobby>
    requires k <= |lobbies|
    decreases |lobbies| - k
  {
    if k == |lobbies| then [] else if env(k).ClaimRaises? then lobbies[k..] else LostFrom(lobbies, k + 1, env)
  }

  /** The pass with result `r` has got to entry k. */
  ghost predicate Underway(r: RetryResult, d: Desk, k: nat, still: seq<Waiting>, gone: seq<Lobby>, env: nat -> Env) {
    k <= |d.pending| && Ordered(d.rooms) && r == RetryFrom(d, k, still, gone, env)
  }

  lemma PassEnds(r: RetryResult, d: Desk, k: nat, still: seq<Waiting>, gone: seq<Lobby>, env: nat -> Env)
    requires Underway(r, d, k, still, gone, env) && (k == |d.pending| || env(k).ClaimRaises?)
    ensures r == if k == |d.pending| then RetryResult(d.(pending := still), true, gone) else RetryResult(d, false, gone)
  {
  }

  /** One entry of a retry pass: it stays one retry older, or it leaves. */
  lemma RetryStep(r: RetryResult, d: Desk, k: nat, still: seq<Waiting>, gone: seq<Lobby>, env: nat -> Env)
    returns (d': Desk, still': seq<Waiting>, gone': seq<Lobby>)
    requires Underway(r, d, k, still, gone, env) && k < |d.pending| && env(k).Env?
    ensures d'.pending == d.pending && d'.queue == d.queue && Underway(r, d', k + 1, still', gone', env)
    ensures d.ledger.exhausted <= d'.ledger.exhausted
    ensures var w := d.pending[k];
            || (still' == still + [Waiting(w.lobby, w.retry + 1)] && w.retry < MAX_SCALE_RETRIES && gone' == gone
                && d'.deficit == d.deficit)
            || (still' == still && gone' == gone + [w.lobby] && d'.deficit == Decremented(d.deficit))
  {
    var w := d.pending[k];
    var (next, stays) := RetryOne(d, w, env(k));
    d' := next;
    still' := if stays.Some? then still + [stays.value] else still;
    gone' := if stays.Some? then gone else gone + [w.lobby];
  }

  // --------------------------------------------- what can be checked before a pass

  /** The pool after the turn of one waiting lobby. */
  function RoomsAfterTurn(rooms: seq<Entry>, env: Env): (after: seq<Entry>)
    requires env.Env? && Ordered(rooms)
    ensures Ordered(after)
  {
    var (room, rest) := Claim(rooms, env);
    if room.Some? && !env.published && env.released then PutEntry(rest, RoomPool.Entry(room.value, Available)) else rest
  }

  /** From entry k on until a listing raises, each lobby finds no room in the pool as it is by
      then and has retries left, or, if `emptyMayGo`, has nobody in it. */
  predicate NobodyGoes(pending: seq<Waiting>, rooms: seq<Entry>, env: nat -> Env, k: nat, emptyMayGo: bool)
    requires Ordered(rooms) && k <= |pending|
    decreases |pending| - k
  {
    k == |pending| || env(k).ClaimRaises?
    || (&& ((emptyMayGo && pending[k].lobby == [])
            || (Claim(rooms, env(k)).0.None? && pending[k].retry < MAX_SCALE_RETRIES))
        && NobodyGoes(pending, RoomsAfterTurn(rooms, env(k)), env, k + 1, emptyMayGo))
  }

  ghost predicate NoListingRaises(env: nat -> Env, k: nat, n: nat) {
    forall j: nat :: k <= j < n ==> env(j).Env?
  }

  /** No listing raises in this retry pass, or none does so after a lobby has gone. */
  ghost predicate NothingUndone(d: Desk, env: nat -> Env, emptyMayGo: bool)
    requires Ordered(d.rooms)
  {
    NoListingRaises(env, 0, |d.pending|) || NobodyGoes(d.pending, d.rooms, env, 0, emptyMayGo)
  }

  ghost predicate Spared(gone: seq<Lobby>, emptyMayGo: bool) {
    forall k :: 0 <= k < |gone| ==> emptyMayGo && gone[k] == []
  }

  lemma SparedStrictly(gone: seq<Lobby>)
    ensures Spared(gone, false) <==> gone == []
  {
    assert |gone| > 0 ==> gone[0] in gone;
  }

  lemma SparedSnoc(gone: seq<Lobby>, lobby: Lobby, emptyMayGo: bool)
    ensures Spared(gone + [lobby], emptyMayGo) <==> Spared(gone, emptyMayGo) && emptyMayGo && lobby == []
  {
    assert (gone + [lobby])[|gone|] == lobby;
    assert forall k :: 0 <= k < |gone| ==> (gone + [lobby])[k] == gone[k];
  }

  lemma UnderwayNext(r: RetryResult, d: Desk, k: nat, still: seq<Waiting>, gone: seq<Lobby>, env: nat -> Env,
                     d': Desk, stays: Option<Waiting>)
    requires Underway(r, d, k, still, gone, env) && k < |d.pending| && env(k).Env?
    requires (d', stays) == RetryOne(d, d.pending[k], env(k))
    ensures if stays.Some? then Underway(r, d', k + 1, still + [stays.value], gone, env)
            else Underway(r, d', k + 1, still, gone + [d.pending[k].lobby], env)
  {
  }

  lemma TurnOf(d: Desk, w: Waiting, env: Env)
    requires Ordered(d.rooms) && env.Env?
    ensures var (d', stays) := RetryOne(d, w, env);
      && d'.rooms == RoomsAfterTurn(d.rooms, env)
      && (stays.Some? <==> Claim(d.rooms, env).0.None? && w.retry < MAX_SCALE_RETRIES)
  {
  }

  lemma GoesOn(d: Desk, k: nat, env: nat -> Env, emptyMayGo: bool)
    requires Ordered(d.rooms) && k < |d.pending| && env(k).Env?
    ensures NobodyGoes(d.pending, d.rooms, env, k, emptyMayGo) <==>
              && ((emptyMayGo && d.pending[k].lobby == [])
                  || (Claim(d.rooms, env(k)).0.None? && d.pending[k].retry < MAX_SCALE_RETRIES))
              && NobodyGoes(d.pending, RoomsAfterTurn(d.rooms, env(k)), env, k + 1, emptyMayGo)
  {
  }

  lemma GuardStep(r: RetryResult, d: Desk, k: nat, still: seq<Waiting>, gone: seq<Lobby>, env: nat -> Env, emptyMayGo: bool)
    returns (d': Desk, still': seq<Waiting>, gone': seq<Lobby>)
    requires Underway(r, d, k, still, gone, env) && k < |d.pending| && env(k).Env?
    ensures d'.pending == d.pending && Underway(r, d', k + 1, still', gone', env)
    ensures Spared(gone', emptyMayGo) && NobodyGoes(d'.pending, d'.rooms, env, k + 1, emptyMayGo)
            <==> Spared(gone, emptyMayGo) && NobodyGoes(d.pending, d.rooms, env, k, emptyMayGo)
  {
    var w := d.pending[k];
    var (next, stays) := RetryOne(d, w, env(k));
    TurnOf(d, w, env(k));
    GoesOn(d, k, env, emptyMayGo);
    UnderwayNext(r, d, k, still, gone, env, next, stays);
    SparedSnoc(gone, w.lobby, emptyMayGo);
    d' := next;
    still' := if stays.Some? then still + [stays.value] else still;
    gone' := if stays.Some? then gone else gone + [w.lobby];
  }

  lemma NoListingRaisesFrom(env: nat -> Env, k: nat, n: nat)
    requires k <= n
    ensures NoListingRaises(env, k, n) <==> k == n || (env(k).Env? && NoListingRaises(env, k + 1, n))
  {
  }

  lemma PassStep(r: RetryResult, d: Desk, k: nat, still: seq<Waiting>, gone: seq<Lobby>, env: nat -> Env)
    returns (d': Desk, still': seq<Waiting>, gone': seq<Lobby>)
    requires Underway(r, d, k, still, gone, env) && k < |d.pending| && env(k).Env?
    ensures d'.pending == d.pending && Underway(r, d', k + 1, still', gone', env)
  {
    d', still', gone' := RetryStep(r, d, k, still, gone, env);
  }

  lemma {:induction false} PassCompletes(r: RetryResult, d: Desk, k: nat, still: seq<Waiting>, gone: seq<Lobby>,
                                         env: nat -> Env)
    requires Underway(r, d, k, still, gone, env)
    ensures r.completed <==> NoListingRaises(env, k, |d.pending|)
    decreases |d.pending| - k
  {
    NoListingRaisesFrom(env, k, |d.pending|);
    if k == |d.pending| || env(k).ClaimRaises? {
      PassEnds(r, d, k, still, gone, env);
    } else {
      var d', still', gone' := PassStep(r, d, k, still, gone, env);
      PassCompletes(r, d', k + 1, still', gone', env);
    }
  }

  /** How a pass ends is settled by those guards. */
  lemma {:induction false} PassGuards(r: RetryResult, d: Desk, k: nat, still: seq<Waiting>, gone: seq<Lobby>,
                                      env: nat -> Env, emptyMayGo: bool)
    requires Underway(r, d, k, still, gone, env)
    ensures Spared(r.gone, emptyMayGo) <==>
              Spared(gone, emptyMayGo) && NobodyGoes(d.pending, d.rooms, env, k, emptyMayGo)
    decreases |d.pending| - k
  {
    if k == |d.pending| || env(k).ClaimRaises? {
      PassEnds(r, d, k, still, gone, env);
    } else {
      var d', still', gone' := GuardStep(r, d, k, still, gone, env, emptyMayGo);
      PassGuards(r, d', k + 1, still', gone', env, emptyMayGo);
    }
  }

  /** A retry pass is undone, in part, exactly if the guards say so. */
  lemma RetryUndoneIff(d: Desk, env: nat -> Env, emptyMayGo: bool)
    requires Ordered(d.rooms)
    ensures Retry(d, env).completed <==> NoListingRaises(env, 0, |d.pending|)
    ensures Retry(d, env).completed || Spared(Retry(d, env).gone, emptyMayGo) <==> NothingUndone(d, env, emptyMayGo)
  {
    PassCompletes(Retry(d, env), d, 0, [], [], env);
    PassGuards(Retry(d, env), d, 0, [], [], env, emptyMayGo);
  }

  // -------------------------------------------------------------------- deficit

  function Less(a: nat, b: nat): nat {
    if a < b then a else b
  }

  /** Each lobby gone has lowered the deficit by one, down to zero; only a pass that runs to
      its end takes the lobbies off the list. */
  ghost predicate Counted(r: RetryResult, deficit: nat, listed: nat) {
    && r.desk.deficit == deficit - Less(deficit, |r.gone|)
    && |r.desk.pending| == if r.completed then listed - |r.gone| else listed
  }

  lemma DeficitStep(r: RetryResult, d: Desk, k: nat, still: seq<Waiting>, gone: seq<Lobby>, env: nat -> Env, deficit: nat)
    returns (d': Desk, still': seq<Waiting>, gone': seq<Lobby>)
    requires Underway(r, d, k, still, gone, env) && k < |d.pending| && env(k).Env?
    requires d.deficit == deficit - Less(deficit, |gone|)
    ensures d'.pending == d.pending && Underway(r, d', k + 1, still', gone', env)
    ensures |still'| + |gone'| == |still| + |gone| + 1 && d'.deficit == deficit - Less(deficit, |gone'|)
  {
    d', still', gone' := RetryStep(r, d, k, still, gone, env);
  }

  lemma {:induction false} PassDeficit(r: RetryResult, d: Desk, k: nat, still: seq<Waiting>, gone: seq<Lobby>,
                                       env: nat -> Env, deficit: nat, listed: nat)
    requires Underway(r, d, k, still, gone, env) && |d.pending| == listed && |still| + |gone| == k
    requires d.deficit == deficit - Less(deficit, |gone|)
    ensures Counted(r, deficit, listed)
    decreases |d.pending| - k
  {
    if k == |d.pending| || env(k).ClaimRaises? {
      PassEnds(r, d, k, still, gone, env);
    } else {
      var d', still', gone' := DeficitStep(r, d, k, still, gone, env, deficit);
      PassDeficit(r, d', k + 1, still', gone', env, deficit, listed);
    }
  }

  /** If the phase is a retry pass, no listing raises in it after a lobby has gone. */
  ghost predicate NoRetryUndone(d: Desk, p: Phase)
    requires Ordered(d.rooms)
  {
    p.Retrying? ==> NothingUndone(d, p.env, false)
  }

  lemma {:induction false} PlacedDeficit(d: Desk, lobbies: seq<Lobby>, k: nat, env: nat -> Env)
    requires k <= |lobbies| && Ordered(d.rooms)
    ensures var d' := PlaceFrom(d, lobbies, k, env).0;
            d'.deficit - d.deficit == |d'.pending| - |d.pending|
    decreases |lobbies| - k
  {
    if k < |lobbies| && !env(k).ClaimRaises? {
      PlacedDeficit(PlaceOne(d, lobbies[k], env(k)), lobbies, k + 1, env);
    }
  }

  /** A phase keeps the deficit at or below the number of waiting lobbies; and equal to it if
      and only if no listing raises in it after a retried lobby has gone. */
  lemma PhaseKeepsDeficit(cfg: Config, d: Desk, p: Phase)
    requires cfg.Valid() && Ordered(d.rooms) && d.deficit <= |d.pending|
    ensures var d' := Do(cfg, d, p).0;
            && d'.deficit <= |d'.pending|
            && (d.deficit == |d.pending| ==> (d'.deficit == |d'.pending| <==> NoRetryUndone(d, p)))
  {
    match p
    case Retrying(env) =>
      PassDeficit(Retry(d, env), d, 0, [], [], env, d.deficit, |d.pending|);
      RetryUndoneIff(d, env, false);
      SparedStrictly(Retry(d, env).gone);
    case Placing(now, env) =>
      var (lobbies, rest) := Grouped(d, cfg, now);
      PlacedDeficit(d.(queue := rest), lobbies, 0, env);
    case _ =>
  }

  lemma StepKeepsDeficit(cfg: Config, d: Desk, p: Phase, d': Desk)
    requires cfg.Valid() && Ordered(d.rooms) && Follows(cfg, d, p, d') && d.deficit <= |d.pending|
    ensures d'.deficit <= |d'.pending|
    ensures d.deficit == |d.pending| && NoRetryUndone(d, p) ==> d'.deficit == |d'.pending|
  {
    PhaseKeepsDeficit(cfg, d, p);
  }

  ghost predicate NeverUndone(trace: seq<Desk>, phases: seq<Phase>, i: nat)
    requires i <= |phases| < |trace|
  {
    forall j: nat :: j < i ==> Ordered(trace[j].rooms) && NoRetryUndone(trace[j], phases[j])
  }

  lemma NotUndoneBefore(trace: seq<Desk>, phases: seq<Phase>, i: nat)
    requires 0 < i <= |phases| < |trace| && NeverUndone(trace, phases, i)
    ensures NeverUndone(trace, phases, i - 1)
    ensures Ordered(trace[i - 1].rooms) && NoRetryUndone(trace[i - 1], phases[i - 1])
  {
  }

  /** The deficit never exceeds the lobbies waiting for a room, in any run; it counts them
      as long as no listing has raised in a retry pass after a lobby had gone, whatever
      happens to placing passes. */
  lemma {:induction false} DeficitCountsWaitingLobbies(cfg: Config, trace: seq<Desk>, phases: seq<Phase>, i: nat)
    requires cfg.Valid() && Run(cfg, trace, phases) && i < |trace|
    ensures trace[i].deficit <= |trace[i].pending|
    ensures NeverUndone(trace, phases, i) ==> trace[i].deficit == |trace[i].pending|
  {
    if i > 0 {
      DeficitCountsWaitingLobbies(cfg, trace, phases, i - 1);
      RunStaysOrdered(cfg, trace, phases, i - 1);
      assert Follows(cfg, trace[i - 1], phases[i - 1], trace[i - 1 + 1]);
      StepKeepsDeficit(cfg, trace[i - 1], phases[i - 1], trace[i]);
      if NeverUndone(trace, phases, i) {
        NotUndoneBefore(trace, phases, i);
      }
    }
  }

  // ------------------------------------------------------------- oldest lobbies first

  /** No claim fails, no announcement fails, nobody else touches the pool. */
  ghost predicate Undisturbed(env: nat -> Env) {
    forall k: nat :: Calm(env(k))
  }

  /** What an ideal desk would have: announcements made, lobbies waiting, rooms free. */
  datatype Service = Service(assignments: seq<Assignment>, waiting: seq<Waiting>, rooms: seq<RoomId>)

  /** The first free room goes to this lobby; with none free it waits, unless it has been
      turned away too often already. */
  function Serve(v: Service, turn: Waiting): Service {
    if v.rooms != [] then v.(assignments := v.assignments + [Assignment(turn.lobby, v.rooms[0])], rooms := v.rooms[1..])
    else if turn.retry <= MAX_SCALE_RETRIES then v.(waiting := v.waiting + [turn])
    else v
  }

  function ServeFrom(v: Service, turns: seq<Waiting>, k: nat): Service
    requires k <= |turns|
    decreases |turns| - k
  {
    if k == |turns| then v else ServeFrom(Serve(v, turns[k]), turns, k + 1)
  }

  /** The turns of lobbies already waiting: each will have failed once more if not served. */
  function Older(ws: seq<Waiting>): (r: seq<Waiting>)
    ensures |r| == |ws| && forall i :: 0 <= i < |ws| ==> r[i] == Waiting(ws[i].lobby, ws[i].retry + 1)
  {
    seq(|ws|, i requires 0 <= i < |ws| => Waiting(ws[i].lobby, ws[i].retry + 1))
  }

  function FirstTurns(lobbies: seq<Lobby>): (r: seq<Waiting>)
    ensures |r| == |lobbies| && forall i :: 0 <= i < |lobbies| ==> r[i] == Waiting(lobbies[i], 0)
  {
    seq(|lobbies|, i requires 0 <= i < |lobbies| => Waiting(lobbies[i], 0))
  }

  function Seen(d: Desk, waiting: seq<Waiting>): Service {
    Service(d.assignments, waiting, FreeRooms(d.rooms))
  }

  ghost predicate Calm(env: Env) {
    env.Env? && env.changes == [] && env.faults == map[] && env.published
  }

  lemma RetryOneIsServe(d: Desk, w: Waiting, env: Env, still: seq<Waiting>)
    requires Ordered(d.rooms) && Calm(env)
    ensures var (d', stays) := RetryOne(d, w, env);
            && d'.queue == d.queue
            && Seen(d', if stays.Some? then still + [stays.value] else still)
               == Serve(Seen(d, still), Waiting(w.lobby, w.retry + 1))
  {
    ClaimTakesFirstFree(d.rooms, 0);
  }

  lemma RetryStepIsServe(r: RetryResult, d: Desk, k: nat, still: seq<Waiting>, gone: seq<Lobby>, env: nat -> Env)
    returns (d': Desk, still': seq<Waiting>, gone': seq<Lobby>)
    requires Underway(r, d, k, still, gone, env) && k < |d.pending| && Undisturbed(env)
    ensures d'.pending == d.pending && d'.queue == d.queue && Underway(r, d', k + 1, still', gone', env)
    ensures Seen(d', still') == Serve(Seen(d, still), Older(d.pending)[k])
  {
    assert Calm(env(k));
    var w := d.pending[k];
    RetryOneIsServe(d, w, env(k), still);
    var (next, stays) := RetryOne(d, w, env(k));
    UnderwayNext(r, d, k, still, gone, env, next, stays);
    d' := next;
    still' := if stays.Some? then still + [stays.value] else still;
    gone' := if stays.Some? then gone else gone + [w.lobby];
  }

  /** A phase ran to its end, kept the queue, and left this service behind. */
  ghost predicate Leaves(d: Desk, completed: bool, queue: seq<Request>, v: Service) {
    completed && d.queue == queue && Seen(d, d.pending) == v
  }

  lemma {:induction false} RetryIsService(r: RetryResult, d: Desk, k: nat, still: seq<Waiting>, gone: seq<Lobby>,
                                          env: nat -> Env, turns: seq<Waiting>, v: Service)
    requires Underway(r, d, k, still, gone, env) && Undisturbed(env) && turns == Older(d.pending)
    requires v == ServeFrom(Seen(d, still), turns, k)
    ensures Leaves(r.desk, r.completed, d.queue, v)
    decreases |d.pending| - k
  {
    if k == |d.pending| {
      PassEnds(r, d, k, still, gone, env);
    } else {
      assert Calm(env(k));
      var d', still', gone' := RetryStepIsServe(r, d, k, still, gone, env);
      RetryIsService(r, d', k + 1, still', gone', env, turns, v);
    }
  }

  lemma PlaceOneIsServe(d: Desk, lobby: Lobby, env: Env)
    requires Ordered(d.rooms) && Calm(env)
    ensures var d' := PlaceOne(d, lobby, env);
            d'.queue == d.queue && Seen(d', d'.pending) == Serve(Seen(d, d.pending), Waiting(lobby, 0))
  {
    ClaimTakesFirstFree(d.rooms, 0);
  }

  lemma {:induction false} PlaceIsService(r: (Desk, bool), d: Desk, lobbies: seq<Lobby>, k: nat, env: nat -> Env,
                                          turns: seq<Waiting>, v: Service)
    requires PlaceLeads(d, lobbies, k, env, r) && Undisturbed(env) && turns == FirstTurns(lobbies)
    requires v == ServeFrom(Seen(d, d.pending), turns, k)
    ensures Leaves(r.0, r.1, d.queue, v)
    decreases |lobbies| - k
  {
    if k == |lobbies| {
      PlaceEnds(d, lobbies, k, env, r);
    } else {
      assert Calm(env(k));
      PlaceOneIsServe(d, lobbies[k], env(k));
      PlaceNext(d, lobbies, k, env, r);
      PlaceIsService(r, PlaceOne(d, lobbies[k], env(k)), lobbies, k + 1, env, turns, v);
    }
  }

  lemma {:induction false} ServeAppend(v: Service, a: seq<Waiting>, b: seq<Waiting>, k: nat)
    requires k <= |a|
    ensures ServeFrom(v, a + b, k) == ServeFrom(ServeFrom(v, a, k), b, 0)
    decreases |a| - k
  {
    if k < |a| {
      ServeAppend(Serve(v, a[k]), a, b, k + 1);
    } else {
      ServeSuffix(v, a, b, 0);
    }
  }

  lemma {:induction false} ServeSuffix(v: Service, a: seq<Waiting>, b: seq<Waiting>, k: nat)
    requires k <= |b|
    ensures ServeFrom(v, a + b, |a| + k) == ServeFrom(v, b, k)
    decreases |b| - k
  {
    if k < |b| {
      assert (a + b)[|a| + k] == b[k];
      ServeSuffix(Serve(v, b[k]), a, b, k + 1);
    }
  }

  /** An undisturbed tick serves the lobbies waiting longest, then the new ones, in order. */
  lemma TickServesInOrder(d: Desk, cfg: Config, now: real, retryEnv: nat -> Env, placeEnv: nat -> Env)
    requires cfg.Valid() && Ordered(d.rooms) && Undisturbed(retryEnv) && Undisturbed(placeEnv)
    ensures var d' := Place(Retry(d, retryEnv).desk, cfg, now, placeEnv).0;
            Seen(d', d'.pending)
            == ServeFrom(Seen(d, []), Older(d.pending) + FirstTurns(Grouped(d, cfg, now).0), 0)
  {
    var waiting, arriving := Older(d.pending), FirstTurns(Grouped(d, cfg, now).0);
    RetryIsService(Retry(d, retryEnv), d, 0, [], [], retryEnv, waiting, ServeFrom(Seen(d, []), waiting, 0));
    var d1 := Retry(d, retryEnv).desk;
    PlaceAfterRetry(d, d1, cfg, now, placeEnv);
    ServeAppend(Seen(d, []), waiting, arriving, 0);
  }

  lemma PlaceAfterRetry(d: Desk, d1: Desk, cfg: Config, now: real, env: nat -> Env)
    requires cfg.Valid() && Ordered(d1.rooms) && Undisturbed(env) && d1.queue == d.queue
    ensures var d' := Place(d1, cfg, now, env).0;
            Seen(d', d'.pending) == ServeFrom(Seen(d1, d1.pending), FirstTurns(Grouped(d, cfg, now).0), 0)
  {
    var (arriving, rest) := Grouped(d1, cfg, now);
    PlaceIsService(Place(d1, cfg, now, env), d1.(queue := rest), arriving, 0, env, FirstTurns(arriving),
                   ServeFrom(Seen(d1, d1.pending), FirstTurns(arriving), 0));
  }

  /** The turns from k on that are still within the retry limit. */
  function Admissible(turns: seq<Waiting>, k: nat): seq<Waiting>
    requires k <= |turns|
    decreases |turns| - k
  {
    if k == |turns| then []
    else if turns[k].retry <= MAX_SCALE_RETRIES then [turns[k]] + Admissible(turns, k + 1)
    else Admissible(turns, k + 1)
  }

  lemma {:induction false} WithoutRoomsAllWait(v: Service, turns: seq<Waiting>, k: nat)
    requires k <= |turns| && v.rooms == []
    ensures ServeFrom(v, turns, k) == v.(waiting := v.waiting + Admissible(turns, k))
    decreases |turns| - k
  {
    if k < |turns| {
      WithoutRoomsAllWait(Serve(v, turns[k]), turns, k + 1);
    }
  }

  /** The i-th of the first m turns from k on has the i-th room. */
  ghost predicate FirstHaveRooms(v: Service, turns: seq<Waiting>, k: nat, m: nat, made: seq<Assignment>)
    requires k + m <= |turns| && m <= |v.rooms|
  {
    && |made| == |v.assignments| + m
    && made[..|v.assignments|] == v.assignments
    && forall i :: 0 <= i < m ==> made[|v.assignments| + i] == Assignment(turns[k + i].lobby, v.rooms[i])
  }

  lemma OneMoreHasRoom(v: Service, turns: seq<Waiting>, k: nat, m: nat, made: seq<Assignment>)
    requires k < |turns| && v.rooms != [] && k + 1 + m <= |turns| && m < |v.rooms|
    requires FirstHaveRooms(Serve(v, turns[k]), turns, k + 1, m, made)
    ensures FirstHaveRooms(v, turns, k, m + 1, made)
  {
  }

  /** Served are exactly the first min(lobbies, free rooms), the i-th with the i-th room;
      all the others wait on, in order, within the retry limit. */
  lemma {:induction false} FirstComeFirstServed(v: Service, turns: seq<Waiting>, k: nat)
    requires k <= |turns|
    ensures var r := ServeFrom(v, turns, k);
            var m := Less(|turns| - k, |v.rooms|);
            && FirstHaveRooms(v, turns, k, m, r.assignments)
            && r.rooms == v.rooms[m..]
            && r.waiting == v.waiting + Admissible(turns, k + m)
    decreases |turns| - k
  {
    if v.rooms == [] {
      WithoutRoomsAllWait(v, turns, k);
    } else if k < |turns| {
      var v' := Serve(v, turns[k]);
      FirstComeFirstServed(v', turns, k + 1);
      OneMoreHasRoom(v, turns, k, Less(|turns| - (k + 1), |v'.rooms|), ServeFrom(v', turns, k + 1).assignments);
    }
  }

  lemma {:induction false} AllTaken(entries: seq<Entry>)
    requires FreeRooms(entries) == []
    ensures forall i :: 0 <= i < |entries| ==> entries[i].status == InUse
  {
    if entries != [] {
      AllTaken(entries[1..]);
      assert forall i {:trigger entries[i]} :: 1 <= i < |entries| ==> entries[i] == entries[1..][i - 1];
    }
  }

  lemma OthersTaken(entries: seq<Entry>, room: RoomId)
    requires Ordered(entries) && forall i :: 0 <= i < |entries| ==> entries[i].status == InUse
    ensures var after, k := PutEntry(entries, RoomPool.Entry(room, Available)), Slot(entries, room);
      && k < |after| && after[k] == RoomPool.Entry(room, Available)
      && forall i :: 0 <= i < |after| && i != k ==> after[i].status == InUse
  {
    var after, k := PutEntry(entries, RoomPool.Entry(room, Available)), Slot(entries, room);
    var held := Holds(entries, room);
    forall i | 0 <= i < |after| && i != k ensures after[i].status == InUse {
      assert after[i] == entries[if held || i < k then i else i - 1];
    }
  }

  lemma RegisteredIsOnlyFree(entries: seq<Entry>, room: RoomId)
    requires Ordered(entries) && FreeRooms(entries) == []
    ensures FreeRooms(PutEntry(entries, RoomPool.Entry(room, Available))) == [room]
  {
    AllTaken(entries);
    var after := PutEntry(entries, RoomPool.Entry(room, Available));
    var k := Slot(entries, room);
    assert after[k..][0] == RoomPool.Entry(room, Available);
    OthersTaken(entries, room);
    FreeRoomsSplit(after, k);
    NothingFree(after[..k]);
    NothingFree(after[k..][1..]);
  }

  lemma OneRoomOneLobby(v: Service, turns: seq<Waiting>, room: RoomId)
    requires v.rooms == [room] && turns != []
    ensures ServeFrom(v, turns, 0).assignments == v.assignments + [Assignment(turns[0].lobby, room)]
  {
    FirstComeFirstServed(v, turns, 0);
    var made := ServeFrom(v, turns, 0).assignments;
    assert made == made[..|v.assignments|] + [made[|v.assignments|]];
  }

  lemma OneRoomPass(d: Desk, room: RoomId, env: nat -> Env)
    requires Ordered(d.rooms) && d.pending != [] && FreeRooms(d.rooms) == [room] && Undisturbed(env)
    ensures Retry(d, env).desk.assignments == d.assignments + [Assignment(d.pending[0].lobby, room)]
  {
    var turns := Older(d.pending);
    RetryIsService(Retry(d, env), d, 0, [], [], env, turns, ServeFrom(Seen(d, []), turns, 0));
    OneRoomOneLobby(Seen(d, []), turns, room);
  }

  /** What the retry list is for: with no room free, one that registers goes to the lobby
      waiting longest in the next undisturbed pass. */
  lemma RegisteredRoomGoesToOldest(cfg: Config, d: Desk, room: RoomId, env: nat -> Env)
    requires cfg.Valid() && Ordered(d.rooms) && d.pending != [] && FreeRooms(d.rooms) == [] && Undisturbed(env)
    ensures var d1 := Do(cfg, d, Others([Put(RoomPool.Entry(room, Available))])).0;
            Do(cfg, d1, Retrying(env)).0.assignments == d.assignments + [Assignment(d.pending[0].lobby, room)]
  {
    var change := Put(RoomPool.Entry(room, Available));
    OthersAppend(d.rooms, [], change);
    assert [] + [change] == [change];
    RegisteredIsOnlyFree(d.rooms, room);
    OneRoomPass(d.(rooms := AfterOthers(d.rooms, [change])), room, env);
  }
}
