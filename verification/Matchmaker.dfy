// The matchmaker loop: expiry, retries of lobbies without a room, new lobbies, the
// scale-up deficit and the queue-depth gauge.
module Matchmaker {
  import opened Options
  import opened Matching
  import opened RoomPool

  const MAX_SCALE_RETRIES: nat := 15

  type Lobby = seq<Request>

  datatype Waiting = Waiting(lobby: Lobby, retry: nat)

  datatype Assignment = Assignment(lobby: Lobby, room: RoomId)

  /** What the outside does while one lobby is handled: the room listing fails, or other
      processes have made `changes` to the pool since the last claim, this claim meets
      `faults`, and the notification and release go as stated. */
  datatype Env =
    | ClaimRaises
    | Env(changes: seq<Change>, faults: map<RoomId, Fault>, published: bool, released: bool)

  /** Where every accepted request has gone. */
  datatype Ledger = Ledger(
    accepted: multiset<Request>,
    notified: multiset<Request>,
    expired: multiset<Request>,
    exhausted: multiset<Request>,
    failed: multiset<Request>)

  datatype Desk = Desk(
    queue: seq<Request>,
    pending: seq<Waiting>,
    deficit: nat,
    queueDepth: int,
    rooms: seq<Entry>,
    assignments: seq<Assignment>,
    ledger: Ledger)

  // --------------------------------------------------------------- specification

  function Decremented(deficit: nat): nat {
    if deficit == 0 then 0 else deficit - 1
  }

  /** A claimed room is announced; a failed announcement drops the lobby and frees the room. */
  function Assign(d: Desk, lobby: Lobby, room: RoomId, env: Env): (r: Desk)
    requires env.Env? && Ordered(d.rooms)
    ensures Ordered(r.rooms) && r.ledger.accepted == d.ledger.accepted
  {
    if env.published then
      d.(queueDepth := d.queueDepth - |lobby|,
         assignments := d.assignments + [Assignment(lobby, room)],
         ledger := d.ledger.(notified := d.ledger.notified + multiset(lobby)))
    else
      d.(rooms := if env.released then PutEntry(d.rooms, RoomPool.Entry(room, Available)) else d.rooms,
         ledger := d.ledger.(failed := d.ledger.failed + multiset(lobby)))
  }

  lemma ClaimKeepsOrder(entries: seq<Entry>, faults: map<RoomId, Fault>, k: nat)
    requires Ordered(entries) && k <= |entries|
    ensures Ordered(ClaimFrom(entries, faults, k).1)
    decreases |entries| - k
  {
    if k < |entries| {
      ClaimKeepsOrder(entries, faults, k + 1);
      ClaimKeepsOrder(entries[k := RoomPool.Entry(entries[k].room, InUse)], faults, k + 1);
    }
  }

  /** A claim on the pool as the other processes have left it. */
  function Claim(rooms: seq<Entry>, env: Env): (r: (Option<RoomId>, seq<Entry>))
    requires env.Env? && Ordered(rooms)
    ensures Ordered(r.1)
  {
    ClaimKeepsOrder(AfterOthers(rooms, env.changes), env.faults, 0);
    ClaimFrom(AfterOthers(rooms, env.changes), env.faults, 0)
  }

  /** One entry of the retry list; Some when it stays on the list. */
  function RetryOne(d: Desk, w: Waiting, env: Env): (r: (Desk, Option<Waiting>))
    requires env.Env? && Ordered(d.rooms)
    ensures Ordered(r.0.rooms) && r.0.pending == d.pending && r.0.ledger.accepted == d.ledger.accepted
  {
    var (room, rooms) := Claim(d.rooms, env);
    var d' := d.(rooms := rooms);
    if room.Some? then (Assign(d', w.lobby, room.value, env).(deficit := Decremented(d.deficit)), None)
    else if w.retry < MAX_SCALE_RETRIES then (d', Some(Waiting(w.lobby, w.retry + 1)))
    else
      (d'.(deficit := Decremented(d.deficit),
           ledger := d.ledger.(exhausted := d.ledger.exhausted + multiset(w.lobby))), None)
  }

  /** How a retry pass ends: the desk, whether the pass ran to its end, and the lobbies it
      served or gave up. */
  datatype RetryResult = RetryResult(desk: Desk, completed: bool, gone: seq<Lobby>)

  /** The retry loop from entry k on, `still` being what stays and `gone` what has left. An
      exception leaves the old list in place. */
  function RetryFrom(d: Desk, k: nat, still: seq<Waiting>, gone: seq<Lobby>, env: nat -> Env): (r: RetryResult)
    requires k <= |d.pending| && Ordered(d.rooms)
    ensures Ordered(r.desk.rooms) && r.desk.ledger.accepted == d.ledger.accepted
    decreases |d.pending| - k
  {
    if k == |d.pending| then RetryResult(d.(pending := still), true, gone)
    else if env(k).ClaimRaises? then RetryResult(d, false, gone)
    else
      var w := d.pending[k];
      var (d', stays) := RetryOne(d, w, env(k));
      if stays.Some? then RetryFrom(d', k + 1, still + [stays.value], gone, env)
      else RetryFrom(d', k + 1, still, gone + [w.lobby], env)
  }

  /** From here the retry loop ends with result r. */
  ghost predicate RetryLeads(d: Desk, k: nat, still: seq<Waiting>, gone: seq<Lobby>, env: nat -> Env, r: RetryResult) {
    k <= |d.pending| && Ordered(d.rooms) && r == RetryFrom(d, k, still, gone, env)
  }

  lemma RetryNext(d: Desk, k: nat, still: seq<Waiting>, gone: seq<Lobby>, env: nat -> Env, r: RetryResult,
                  d': Desk, stays: Option<Waiting>)
    requires RetryLeads(d, k, still, gone, env, r)
    requires k < |d.pending| && env(k).Env? && (d', stays) == RetryOne(d, d.pending[k], env(k))
    ensures RetryLeads(d', k + 1, if stays.Some? then still + [stays.value] else still,
                       if stays.Some? then gone else gone + [d.pending[k].lobby], env, r)
  {
  }

  lemma RetryEnds(d: Desk, k: nat, still: seq<Waiting>, gone: seq<Lobby>, env: nat -> Env, r: RetryResult)
    requires RetryLeads(d, k, still, gone, env, r) && (k < |d.pending| ==> env(k).ClaimRaises?)
    ensures r == if k < |d.pending| then RetryResult(d, false, gone) else RetryResult(d.(pending := still), true, gone)
  {
  }

  /** A new lobby is assigned, or put on the retry list with the deficit raised. */
  function PlaceOne(d: Desk, lobby: Lobby, env: Env): (r: Desk)
    requires env.Env? && Ordered(d.rooms)
    ensures Ordered(r.rooms) && r.ledger.accepted == d.ledger.accepted
  {
    var (room, rooms) := Claim(d.rooms, env);
    var d' := d.(rooms := rooms);
    if room.Some? then Assign(d', lobby, room.value, env)
    else d'.(deficit := d.deficit + 1, pending := d.pending + [Waiting(lobby, 0)])
  }

  function PlaceFrom(d: Desk, lobbies: seq<Lobby>, k: nat, env: nat -> Env): (r: (Desk, bool))
    requires k <= |lobbies| && Ordered(d.rooms)
    ensures Ordered(r.0.rooms) && r.0.ledger.accepted == d.ledger.accepted
    decreases |lobbies| - k
  {
    if k == |lobbies| then (d, true)
    else if env(k).ClaimRaises? then (d, false)
    else PlaceFrom(PlaceOne(d, lobbies[k], env(k)), lobbies, k + 1, env)
  }

  /** From here the placing loop ends with result r. */
  ghost predicate PlaceLeads(d: Desk, lobbies: seq<Lobby>, k: nat, env: nat -> Env, r: (Desk, bool)) {
    k <= |lobbies| && Ordered(d.rooms) && r == PlaceFrom(d, lobbies, k, env)
  }

  lemma PlaceNext(d: Desk, lobbies: seq<Lobby>, k: nat, env: nat -> Env, r: (Desk, bool))
    requires PlaceLeads(d, lobbies, k, env, r) && k < |lobbies| && env(k).Env?
    ensures PlaceLeads(PlaceOne(d, lobbies[k], env(k)), lobbies, k + 1, env, r)
  {
  }

  lemma PlaceEnds(d: Desk, lobbies: seq<Lobby>, k: nat, env: nat -> Env, r: (Desk, bool))
    requires PlaceLeads(d, lobbies, k, env, r) && (k < |lobbies| ==> env(k).ClaimRaises?)
    ensures r == (d, k == |lobbies|)
  {
  }

  function Accept(d: Desk, req: Request): Desk {
    d.(queue := d.queue + [req],
       queueDepth := d.queueDepth + 1,
       ledger := d.ledger.(accepted := d.ledger.accepted + multiset{req}))
  }

  function DropExpired(d: Desk, kept: seq<Request>, gone: seq<Request>): Desk {
    d.(queue := kept,
       queueDepth := d.queueDepth - |gone|,
       ledger := d.ledger.(expired := d.ledger.expired + multiset(gone)))
  }

  function Expire(d: Desk, now: real, maxAge: real): Desk {
    DropExpired(d, ByAge(d.queue, now, maxAge, false), ByAge(d.queue, now, maxAge, true))
  }

  function Retry(d: Desk, env: nat -> Env): RetryResult
    requires Ordered(d.rooms)
  {
    RetryFrom(d, 0, [], [], env)
  }

  /** What the grouping makes of the queue: lobbies, and the rest. */
  ghost function Grouped(d: Desk, cfg: Config, now: real): (seq<Lobby>, seq<Request>)
    requires cfg.Valid()
  {
    var s := SortByElo(d.queue);
    var scan := FullScan(s, RulesAt(cfg, now));
    ScanStaysWithin(s, RulesAt(cfg, now), 0, Scan({}, []));
    (PickAll(s, scan.lobbies), Pick(s, Unused(scan.used, |s|)))
  }

  ghost function Place(d: Desk, cfg: Config, now: real, env: nat -> Env): (Desk, bool)
    requires cfg.Valid() && Ordered(d.rooms)
  {
    var (lobbies, rest) := Grouped(d, cfg, now);
    PlaceFrom(d.(queue := rest), lobbies, 0, env)
  }

  // ------------------------------------------------------------------ the service

  class MatchmakerLoop {
    const cfg: Config
    const matcher: Matcher
    const rooms: RoomStore
    var scaleUpDeficit: nat
    var pendingLobbies: seq<Waiting>
    var queueDepth: int
    ghost var assignments: seq<Assignment>
    ghost var ledger: Ledger

    ghost predicate Valid()
      reads this, rooms
    {
      cfg.Valid() && rooms.Valid()
    }

    ghost function View(): Desk
      reads this, matcher, rooms
    {
      Desk(matcher.pending, pendingLobbies, scaleUpDeficit, queueDepth, rooms.entries, assignments, ledger)
    }

    constructor (cfg: Config, matcher: Matcher, rooms: RoomStore)
      requires cfg.Valid() && rooms.Valid()
      ensures Valid() && this.matcher == matcher && this.rooms == rooms && this.cfg == cfg
      ensures scaleUpDeficit == 0 && pendingLobbies == [] && queueDepth == 0
    {
      this.cfg, this.matcher, this.rooms := cfg, matcher, rooms;
      scaleUpDeficit, pendingLobbies, queueDepth := 0, [], 0;
      assignments, ledger := [], Ledger(multiset{}, multiset{}, multiset{}, multiset{}, multiset{});
    }

    method AssignLobby(lobby: Lobby, room: RoomId, env: Env)
      requires Valid() && env.Env?
      modifies this`queueDepth, this`assignments, this`ledger, rooms
      ensures Valid() && View() == Assign(old(View()), lobby, room, env)
    {
      if env.published {
        queueDepth := queueDepth - |lobby|;
        assignments := assignments + [Assignment(lobby, room)];
        ledger := ledger.(notified := ledger.notified + multiset(lobby));
      } else {
        ledger := ledger.(failed := ledger.failed + multiset(lobby));
        if env.released {
          rooms.RegisterRoom(room);
        }
      }
    }

    method AcceptRequest(req: Request)
      requires Valid()
      modifies this`queueDepth, this`ledger, matcher
      ensures Valid() && View() == Accept(old(View()), req)
    {
      matcher.AddRequest(req);
      queueDepth := queueDepth + 1;
      ledger := ledger.(accepted := ledger.accepted + multiset{req});
    }

    method ExpireOld(now: real)
      requires Valid()
      modifies this`queueDepth, this`ledger, matcher
      ensures Valid() && View() == Expire(old(View()), now, cfg.MaxWait())
    {
      var expired := matcher.ExpireRequests(now, cfg.MaxWait());
      for i := 0 to |expired|
        invariant queueDepth == old(queueDepth) - i && ledger == old(ledger)
        invariant matcher.pending == ByAge(old(matcher.pending), now, cfg.MaxWait(), false)
      {
        queueDepth := queueDepth - 1;
      }
      ledger := ledger.(expired := ledger.expired + multiset(expired));
    }

    method RetryLobby(w: Waiting, env: Env) returns (stays: Option<Waiting>)
      requires Valid() && env.Env?
      modifies this, rooms
      ensures Valid() && (View(), stays) == RetryOne(old(View()), w, env)
      ensures pendingLobbies == old(pendingLobbies)
    {
      rooms.LetOthersIn(env.changes);
      var room := rooms.ClaimAvailableRoom(env.faults);
      if room.Some? {
        AssignLobby(w.lobby, room.value, env);
        scaleUpDeficit := if scaleUpDeficit - 1 > 0 then scaleUpDeficit - 1 else 0;
        stays := None;
      } else if w.retry < MAX_SCALE_RETRIES {
        stays := Some(Waiting(w.lobby, w.retry + 1));
      } else {
        scaleUpDeficit := if scaleUpDeficit - 1 > 0 then scaleUpDeficit - 1 else 0;
        ledger := ledger.(exhausted := ledger.exhausted + multiset(w.lobby));
        stays := None;
      }
    }

    method RetryPending(env: nat -> Env) returns (completed: bool)
      requires Valid()
      modifies this, rooms
      ensures Valid() && View() == Retry(old(View()), env).desk && completed == Retry(old(View()), env).completed
    {
      var stillPending := [];
      ghost var gone: seq<Lobby>, result := [], Retry(View(), env);
      for k := 0 to |pendingLobbies|
        invariant Valid() && pendingLobbies == old(pendingLobbies)
        invariant RetryLeads(View(), k, stillPending, gone, env, result)
      {
        ghost var desk, still := View(), stillPending;
        if env(k).ClaimRaises? {
          RetryEnds(desk, k, still, gone, env, result);
          return false;
        }
        var stays := RetryLobby(pendingLobbies[k], env(k));
        RetryNext(desk, k, still, gone, env, result, View(), stays);
        if stays.Some? {
          stillPending := stillPending + [stays.value];
        } else {
          gone := gone + [pendingLobbies[k].lobby];
        }
      }
      RetryEnds(View(), |pendingLobbies|, stillPending, gone, env, result);
      pendingLobbies := stillPending;
      return true;
    }

    method PlaceLobby(lobby: Lobby, env: Env)
      requires Valid() && env.Env?
      modifies this, rooms
      ensures Valid() && View() == PlaceOne(old(View()), lobby, env)
    {
      rooms.LetOthersIn(env.changes);
      var room := rooms.ClaimAvailableRoom(env.faults);
      if room.Some? {
        AssignLobby(lobby, room.value, env);
      } else {
        scaleUpDeficit := scaleUpDeficit + 1;
        pendingLobbies := pendingLobbies + [Waiting(lobby, 0)];
      }
    }

    method PlaceNew(now: real, env: nat -> Env) returns (completed: bool)
      requires Valid()
      modifies this, matcher, rooms
      ensures Valid() && (View(), completed) == Place(old(View()), cfg, now, env)
    {
      var lobbies := matcher.MatchTick(cfg, now);
      ghost var result := PlaceFrom(View(), lobbies, 0, env);
      assert result == Place(old(View()), cfg, now, env);
      completed := PlaceLobbies(lobbies, env);
    }

    method PlaceLobbies(lobbies: seq<Lobby>, env: nat -> Env) returns (completed: bool)
      requires Valid()
      modifies this, rooms
      ensures Valid() && (View(), completed) == PlaceFrom(old(View()), lobbies, 0, env)
    {
      ghost var result := PlaceFrom(View(), lobbies, 0, env);
      for k := 0 to |lobbies|
        invariant Valid() && PlaceLeads(View(), lobbies, k, env, result)
      {
        ghost var desk := View();
        if env(k).ClaimRaises? {
          PlaceEnds(desk, lobbies, k, env, result);
          return false;
        }
        PlaceLobby(lobbies[k], env(k));
        PlaceNext(desk, lobbies, k, env, result);
      }
      PlaceEnds(View(), lobbies, |lobbies|, env, result);
      return true;
    }

    /** One pass of the loop body; an exception ends the pass early. */
    method Tick(expireAt: real, matchAt: real, retryEnv: nat -> Env, placeEnv: nat -> Env)
      requires Valid()
      modifies this, matcher, rooms
      ensures Valid()
      ensures var retry := Retry(Expire(old(View()), expireAt, cfg.MaxWait()), retryEnv);
              View() == if retry.completed then Place(retry.desk, cfg, matchAt, placeEnv).0 else retry.desk
    {
      ExpireOld(expireAt);
      var completed := RetryPending(retryEnv);
      if completed {
        completed := PlaceNew(matchAt, placeEnv);
      }
    }
  }
}
