// What every tick keeps: the arena bounds and health range, the link between hits,
// kill records and respawns, and the sum of score and health.
module ArenaLaws {
  import opened Options
  import opened Arena

  // ------------------------------------------------------------ world invariant

  predicate InArena(p: Player) {
    -500.0 <= p.x <= 500.0 && -500.0 <= p.y <= 500.0 && p.score >= 0 && p.score % 10 == 0
  }

  /** What holds of every player between ticks. */
  predicate Sound(p: Player) {
    InArena(p) && 10 <= p.health <= 100 && p.health % 10 == 0
  }

  /** What holds of every player in the middle of a tick: only the connected die. */
  predicate Fighting(p: Player) {
    InArena(p) && p.health <= 100 && p.health % 10 == 0 && (p.health <= 0 ==> p.connected)
  }

  ghost predicate AllSound(r: Roster) {
    forall id <- r.states :: Sound(r.states[id])
  }

  ghost predicate AllFighting(r: Roster) {
    forall id <- r.states :: Fighting(r.states[id])
  }

  lemma ArrivedKeepsFighting(r: Roster, id: PlayerId, c: Input)
    requires c.Command? && AllFighting(r)
    ensures AllFighting(Arrived(r, id, c))
  {
  }

  lemma ShotKeepsFighting(r: Roster, id: PlayerId, victim: PlayerId)
    requires AllFighting(r) && id in r.states && Enemy(r, id, victim)
    ensures AllFighting(Shot(r, id, victim))
  {
  }

  lemma HandleKeepsFighting(r: Roster, id: PlayerId, c: Input)
    requires WellFormed(r) && c.Command? && AllFighting(r)
    ensures AllFighting(Handle(r, id, c).roster)
  {
    ArrivedWellFormed(r, id, c);
    ArrivedKeepsFighting(r, id, c);
    var here := Arrived(r, id, c);
    if c.shoot && Target(here, id).Some? {
      ShotKeepsFighting(here, id, Target(here, id).value);
    }
  }

  lemma {:induction false} PlayKeepsFighting(r: Roster, messages: seq<Message>)
    requires WellFormed(r) && Playable(messages) && AllFighting(r)
    ensures AllFighting(Play(r, messages).roster)
  {
    if messages != [] {
      var rest, last := messages[..|messages| - 1], messages[|messages| - 1];
      PlayKeepsFighting(r, rest);
      HandleKeepsFighting(Play(r, rest).roster, last.sender, last.input);
    }
  }

  lemma SoundFights(r: Roster)
    requires AllSound(r)
    ensures AllFighting(r)
  {
  }

  lemma RespawnIsSound(r: Roster)
    requires AllFighting(r)
    ensures AllSound(Respawn(r))
  {
    forall id <- Respawn(r).states ensures Sound(Respawn(r).states[id]) {
      assert Fighting(r.states[id]);
    }
  }

  /** Every tick leaves every player inside the arena, with health 10 to 100 in steps
      of 10 and a score that is a non-negative multiple of 10. */
  lemma TickKeepsSound(r: Roster, messages: seq<Message>)
    requires WellFormed(r) && Playable(messages) && AllSound(r)
    ensures AllSound(Ticked(r, messages))
  {
    SoundFights(r);
    PlayKeepsFighting(r, messages);
    RespawnIsSound(Play(r, messages).roster);
  }

  // --------------------------------------------------------------- moves and scores

  function Apart(u: real, v: real): real {
    if u >= v then u - v else v - u
  }

  /** A move ends, on each axis, at the point of the arena nearest to where the step by
      d times speed would lead, and changes nothing else. */
  lemma MoveEndsNearestToStep(p: Player, c: Input, u: real, v: real)
    requires c.Command? && -500.0 <= u <= 500.0 && -500.0 <= v <= 500.0
    ensures var q := MovedBy(p, c);
      && -500.0 <= q.x <= 500.0 && -500.0 <= q.y <= 500.0
      && Apart(q.x, p.x + c.dx * c.speed) <= Apart(u, p.x + c.dx * c.speed)
      && Apart(q.y, p.y + c.dy * c.speed) <= Apart(v, p.y + c.dy * c.speed)
      && q == p.(x := q.x, y := q.y)
  {
  }

  function Before(r: Roster, q: PlayerId): Player {
    if q in r.states then r.states[q] else NEWCOMER
  }

  /** One input moves its sender, takes 10 health from the one it hits and gives 10 score
      to its sender for the hit; everyone else stays exactly as they were. */
  lemma InputEffect(r: Roster, id: PlayerId, c: Input, q: PlayerId)
    requires WellFormed(r) && c.Command? && q in Handle(r, id, c).roster.states
    ensures var o, p := Handle(r, id, c), Before(r, q);
      && (q == id ==> o.roster.states[q] == MovedBy(p, c).(score := p.score + if o.hit.Some? then 10 else 0))
      && (q != id ==> o.roster.states[q] == p.(health := p.health - if o.hit == Some(q) then 10 else 0))
      && (q in r.states || q == id) && o.hit != Some(id)
  {
  }

  // ------------------------------------------------------------------ who is hit

  function SquaredDistance(p: Player, q: Player): real {
    (q.x - p.x) * (q.x - p.x) + (q.y - p.y) * (q.y - p.y)
  }

  /** The k-th player of the dictionary, if connected and not the shooter, can be hit. */
  ghost predicate CanBeHit(r: Roster, shooter: PlayerId, k: nat)
    requires Listed(r) && k < |r.order|
  {
    r.order[k] != shooter && r.states[r.order[k]].connected
  }

  ghost function DistanceTo(r: Roster, shooter: PlayerId, k: nat): real
    requires Listed(r) && shooter in r.states && k < |r.order|
  {
    SquaredDistance(r.states[shooter], r.states[r.order[k]])
  }

  /** It is less than 200 away; of the others that can be hit none is nearer, and none that
      stands before it in the dictionary is as near. */
  ghost predicate NearestInRange(r: Roster, shooter: PlayerId, k: nat)
    requires Listed(r) && shooter in r.states && k < |r.order|
  {
    && CanBeHit(r, shooter, k) && DistanceTo(r, shooter, k) < 200.0 * 200.0
    && (forall j: nat :: k < j < |r.order| && CanBeHit(r, shooter, j) ==>
          DistanceTo(r, shooter, k) <= DistanceTo(r, shooter, j))
    && (forall j: nat :: j < k && CanBeHit(r, shooter, j) ==>
          DistanceTo(r, shooter, k) < DistanceTo(r, shooter, j))
  }

  lemma NearestIsFirstNearest(r: Roster, id: PlayerId, k: nat)
    requires WellFormed(r) && id in r.states && k < |r.order|
    ensures NearestInRange(r, id, k) <==> FirstNearest(r, id, |r.order|, k) && Gap(r, id, k) < RANGE2
  {
    forall j: nat | j < |r.order|
      ensures Enemy(r, id, r.order[j]) <==> CanBeHit(r, id, j)
      ensures Gap(r, id, j) == DistanceTo(r, id, j)
    {
    }
  }

  /** Positions, connections and the order of the dictionary decide who is nearest. */
  lemma SameSight(a: Roster, b: Roster, id: PlayerId, k: nat)
    requires Listed(a) && Listed(b) && a.order == b.order && id in a.states && id in b.states && k < |a.order|
    requires forall q :: q in a.states && q in b.states ==>
      a.states[q].x == b.states[q].x && a.states[q].y == b.states[q].y && a.states[q].connected == b.states[q].connected
    ensures NearestInRange(a, id, k) <==> NearestInRange(b, id, k)
  {
    forall j: nat | j < |a.order|
      ensures CanBeHit(a, id, j) <==> CanBeHit(b, id, j)
      ensures DistanceTo(a, id, j) == DistanceTo(b, id, j)
    {
    }
  }

  /** An input hits somebody if and only if it shoots and, once its sender has moved, there is
      a player to hit within 200; then it hits the nearest one, the earliest in the dictionary
      among equally near ones. */
  lemma InputHits(r: Roster, id: PlayerId, c: Input, k: nat)
    requires WellFormed(r) && c.Command? && k < |Handle(r, id, c).roster.order|
    ensures WellFormed(Handle(r, id, c).roster) && id in Handle(r, id, c).roster.states
    ensures var o := Handle(r, id, c);
      && (o.hit == Some(o.roster.order[k]) <==> c.shoot && NearestInRange(o.roster, id, k))
      && (o.hit.Some? ==> o.hit.value in o.roster.order)
  {
    HandleWellFormed(r, id, c);
    ArrivedWellFormed(r, id, c);
    var here, o := Arrived(r, id, c), Handle(r, id, c);
    ShotHitsNearest(here, id, k);
    NearestIsFirstNearest(here, id, k);
    SameSight(here, o.roster, id, k);
  }

  // ------------------------------------------------------ the order of the dictionary

  /** Whoever of `ids` is not there yet comes in, behind the others, in order. */
  function ComeIn(order: seq<PlayerId>, ids: seq<PlayerId>): seq<PlayerId> {
    if ids == [] then order
    else
      var before, last := ComeIn(order, ids[..|ids| - 1]), ids[|ids| - 1];
      if last in before then before else before + [last]
  }

  /** `a` is met in the list before `b` is. */
  ghost predicate MetBefore(s: seq<PlayerId>, a: PlayerId, b: PlayerId) {
    exists i :: 0 <= i < |s| && s[i] == a && b !in s[..i + 1]
  }

  lemma MetBeforeSnoc(s: seq<PlayerId>, x: PlayerId, a: PlayerId, b: PlayerId)
    ensures MetBefore(s + [x], a, b) <==> MetBefore(s, a, b) || (x == a && a != b && b !in s)
  {
    var longer := s + [x];
    if MetBefore(longer, a, b) {
      var i :| 0 <= i < |longer| && longer[i] == a && b !in longer[..i + 1];
      if i == |s| {
        assert longer[..i + 1] == longer && longer[i] == x;
        assert forall k :: 0 <= k < |s| ==> longer[k] == s[k];
      } else {
        assert longer[..i + 1] == s[..i + 1];
      }
    }
    if x == a && a != b && b !in s {
      assert longer[|s|] == a && longer[..|s| + 1] == longer;
    }
    if MetBefore(s, a, b) {
      var i :| 0 <= i < |s| && s[i] == a && b !in s[..i + 1];
      assert longer[i] == a && longer[..i + 1] == s[..i + 1];
    }
  }

  lemma MetBeforeIsThere(s: seq<PlayerId>, a: PlayerId, b: PlayerId)
    requires a in s && b !in s
    ensures MetBefore(s, a, b)
  {
    var i :| 0 <= i < |s| && s[i] == a;
    assert b !in s[..i + 1];
  }

  /** That is the list of all of them in the order in which they are first met. */
  lemma {:induction false} ComeInOrder(order: seq<PlayerId>, ids: seq<PlayerId>)
    requires Distinct(order)
    ensures var after := ComeIn(order, ids);
      && order <= after && Distinct(after)
      && (forall x :: x in after <==> x in order || x in ids)
      && (forall a, b :: MetBefore(after, a, b) <==> MetBefore(order + ids, a, b))
  {
    if ids == [] {
      assert order + ids == order;
    } else {
      var rest, last := ids[..|ids| - 1], ids[|ids| - 1];
      ComeInOrder(order, rest);
      assert ids == rest + [last] && order + ids == (order + rest) + [last];
      var before := ComeIn(order, rest);
      forall a, b ensures MetBefore(ComeIn(order, ids), a, b) <==> MetBefore(order + ids, a, b) {
        MetBeforeSnoc(order + rest, last, a, b);
        MetBeforeSnoc(before, last, a, b);
        if last in before && last == a && b !in before {
          MetBeforeIsThere(before, a, b);
        }
      }
    }
  }

  function SendersInOrder(messages: seq<Message>): seq<PlayerId> {
    if messages == [] then [] else SendersInOrder(messages[..|messages| - 1]) + [messages[|messages| - 1].sender]
  }

  lemma HandleOrder(r: Roster, id: PlayerId, c: Input)
    requires WellFormed(r) && c.Command?
    ensures Handle(r, id, c).roster.order == if id in r.order then r.order else r.order + [id]
  {
  }

  lemma {:induction false} PlayOrder(r: Roster, messages: seq<Message>)
    requires WellFormed(r) && Playable(messages)
    ensures Play(r, messages).roster.order == ComeIn(r.order, SendersInOrder(messages))
  {
    if messages != [] {
      var rest, last := messages[..|messages| - 1], messages[|messages| - 1];
      PlayOrder(r, rest);
      HandleOrder(Play(r, rest).roster, last.sender, last.input);
      assert SendersInOrder(messages)[..|SendersInOrder(rest)|] == SendersInOrder(rest);
    }
  }

  /** A tick keeps the dictionary's order; senders who were not in it come in behind, in the
      order of their first messages. */
  lemma TickOrder(r: Roster, messages: seq<Message>)
    requires WellFormed(r) && Playable(messages)
    ensures var after := Ticked(r, messages);
      && r.order <= after.order
      && forall a, b :: MetBefore(after.order, a, b) <==> MetBefore(r.order + SendersInOrder(messages), a, b)
  {
    PlayOrder(r, messages);
    ComeInOrder(r.order, SendersInOrder(messages));
  }

  // ---------------------------------------------------------------------- scores

  /** How many of the messages are shots of `q` that hit somebody. */
  function Landed(r: Roster, messages: seq<Message>, q: PlayerId): nat
    requires WellFormed(r) && Playable(messages)
  {
    if messages == [] then 0
    else
      var rest, last := messages[..|messages| - 1], messages[|messages| - 1];
      Landed(r, rest, q)
        + if last.sender == q && Handle(Play(r, rest).roster, last.sender, last.input).hit.Some? then 1 else 0
  }

  /** A player's score grows by 10 for each own shot that hit, and by nothing else. */
  lemma {:induction false} ScoreCountsLandedShots(r: Roster, messages: seq<Message>, q: PlayerId)
    requires WellFormed(r) && Playable(messages)
    ensures q in Play(r, messages).roster.states ==>
      Play(r, messages).roster.states[q].score == Before(r, q).score + 10 * Landed(r, messages, q)
    ensures q !in Play(r, messages).roster.states ==> q !in r.states && Landed(r, messages, q) == 0
  {
    if messages != [] {
      var rest, last := messages[..|messages| - 1], messages[|messages| - 1];
      var before := Play(r, rest).roster;
      ScoreCountsLandedShots(r, rest, q);
      HandlePlayers(before, last.sender, last.input);
      if q in Play(r, messages).roster.states {
        InputEffect(before, last.sender, last.input, q);
      }
    }
  }

  lemma HandlePlayers(r: Roster, id: PlayerId, c: Input)
    requires WellFormed(r) && c.Command?
    ensures Handle(r, id, c).roster.states.Keys == r.states.Keys + {id}
  {
    ArrivedWellFormed(r, id, c);
  }

  function Senders(messages: seq<Message>): set<PlayerId> {
    if messages == [] then {} else Senders(messages[..|messages| - 1]) + {messages[|messages| - 1].sender}
  }

  lemma {:induction false} PlayPlayers(r: Roster, messages: seq<Message>)
    requires WellFormed(r) && Playable(messages)
    ensures Play(r, messages).roster.states.Keys == r.states.Keys + Senders(messages)
  {
    if messages != [] {
      var rest, last := messages[..|messages| - 1], messages[|messages| - 1];
      PlayPlayers(r, rest);
      HandlePlayers(Play(r, rest).roster, last.sender, last.input);
    }
  }

  /** After a tick the players are those before it and the senders of its inputs: nobody
      is dropped. */
  lemma TickPlayers(r: Roster, messages: seq<Message>)
    requires WellFormed(r) && Playable(messages)
    ensures Ticked(r, messages).states.Keys == r.states.Keys + Senders(messages)
  {
    PlayPlayers(r, messages);
    assert Ticked(r, messages).states.Keys == Play(r, messages).roster.states.Keys;
  }

  // --------------------------------------------------------- hits, kills, respawns

  function Hits(hits: seq<PlayerId>, v: PlayerId): nat {
    if hits == [] then 0 else Hits(hits[..|hits| - 1], v) + if hits[|hits| - 1] == v then 1 else 0
  }

  function Kills(kills: seq<Kill>, v: PlayerId): nat {
    if kills == [] then 0 else Kills(kills[..|kills| - 1], v) + if kills[|kills| - 1].victim == v then 1 else 0
  }

  /** The health a player starts the tick with; one who enters during it starts at 100. */
  function HealthBefore(r: Roster, v: PlayerId): int {
    if v in r.states then r.states[v].health else 100
  }

  function KillsDue(health: int, hits: nat): nat {
    if hits - health / 10 + 1 > 0 then hits - health / 10 + 1 else 0
  }

  lemma HandleHealth(r: Roster, id: PlayerId, c: Input, v: PlayerId)
    requires WellFormed(r) && c.Command?
    ensures var o := Handle(r, id, c);
      v in o.roster.states ==>
        o.roster.states[v].health == HealthBefore(r, v) - if o.hit == Some(v) then 10 else 0
    ensures var o := Handle(r, id, c); v in r.states || o.hit == Some(v) ==> v in o.roster.states
  {
  }

  lemma NoHitNoKill(health: int)
    requires health >= 10
    ensures KillsDue(health, 0) == 0
  {
  }

  /** Health and kill records of one player are what the hits on that player make of them. */
  ghost predicate Explained(r: Roster, m: Melee, v: PlayerId) {
    var hits := Hits(m.hits, v);
    && (v in m.roster.states ==> m.roster.states[v].health == HealthBefore(r, v) - 10 * hits)
    && (v !in m.roster.states ==> v !in r.states && hits == 0)
    && Kills(m.kills, v) == KillsDue(HealthBefore(r, v), hits)
  }

  lemma UnhitExplained(r: Roster, before: Melee, id: PlayerId, o: Outcome, v: PlayerId)
    requires Explained(r, before, v) && o.hit != Some(v) && (o.hit.Some? ==> o.hit.value in o.roster.states)
    requires v in o.roster.states ==> o.roster.states[v].health == HealthBefore(before.roster, v)
    requires v in before.roster.states ==> v in o.roster.states
    ensures Explained(r, Record(before, id, o), v)
  {
  }

  lemma HitExplained(r: Roster, before: Melee, id: PlayerId, o: Outcome, v: PlayerId, health: int)
    requires Explained(r, before, v) && o.hit == Some(v) && health == HealthBefore(r, v) && health % 10 == 0
    requires v in o.roster.states && o.roster.states[v].health == HealthBefore(before.roster, v) - 10
    ensures Explained(r, Record(before, id, o), v)
  {
  }

  lemma SoundStart(r: Roster, v: PlayerId)
    requires AllSound(r)
    ensures HealthBefore(r, v) % 10 == 0 && HealthBefore(r, v) >= 10
  {
  }

  /** A player who started the tick with h health and was hit k times is left with
      h - 10k, and appears as victim in exactly max(0, k - h/10 + 1) kill records. */
  lemma {:induction false} HitsExplainHealthAndKills(r: Roster, messages: seq<Message>, v: PlayerId)
    requires WellFormed(r) && Playable(messages) && AllSound(r)
    ensures Explained(r, Play(r, messages), v)
  {
    SoundStart(r, v);
    if messages == [] {
      NoHitNoKill(HealthBefore(r, v));
    } else {
      var rest, last := messages[..|messages| - 1], messages[|messages| - 1];
      HitsExplainHealthAndKills(r, rest, v);
      var before := Play(r, rest);
      var o := Handle(before.roster, last.sender, last.input);
      HandleHealth(before.roster, last.sender, last.input, v);
      if o.hit == Some(v) {
        HitExplained(r, before, last.sender, o, v, HealthBefore(r, v));
      } else {
        UnhitExplained(r, before, last.sender, o, v);
      }
    }
  }

  function KillsBy(kills: seq<Kill>, q: PlayerId): nat {
    if kills == [] then 0 else KillsBy(kills[..|kills| - 1], q) + if kills[|kills| - 1].killer == q then 1 else 0
  }

  /** How many of the messages are shots of `q` that leave the one they hit without health. */
  function Lethal(r: Roster, messages: seq<Message>, q: PlayerId): nat
    requires WellFormed(r) && Playable(messages)
  {
    if messages == [] then 0
    else
      var rest, last := messages[..|messages| - 1], messages[|messages| - 1];
      var o := Handle(Play(r, rest).roster, last.sender, last.input);
      Lethal(r, rest, q)
        + if last.sender == q && o.hit.Some? && o.roster.states[o.hit.value].health <= 0 then 1 else 0
  }

  /** The kill records name as killers those who fired the lethal shots, once for each. */
  lemma {:induction false} KillersFiredLethalShots(r: Roster, messages: seq<Message>, q: PlayerId)
    requires WellFormed(r) && Playable(messages)
    ensures KillsBy(Play(r, messages).kills, q) == Lethal(r, messages, q)
  {
    if messages != [] {
      var rest, last := messages[..|messages| - 1], messages[|messages| - 1];
      KillersFiredLethalShots(r, rest, q);
      var before := Play(r, rest);
      var o := Handle(before.roster, last.sender, last.input);
      RecordsKiller(before, last.sender, o, q);
    }
  }

  lemma RecordsKiller(m: Melee, shooter: PlayerId, o: Outcome, q: PlayerId)
    requires o.hit.Some? ==> o.hit.value in o.roster.states
    ensures KillsBy(Record(m, shooter, o).kills, q)
            == KillsBy(m.kills, q)
               + if shooter == q && o.hit.Some? && o.roster.states[o.hit.value].health <= 0 then 1 else 0
  {
  }

  lemma DueExactlyAtZero(health: int, hits: nat)
    requires health % 10 == 0
    ensures KillsDue(health, hits) > 0 <==> health - 10 * hits <= 0
  {
  }

  /** Exactly the players with a kill record in this tick respawn in it: at the origin,
      with full health, and with their score kept. */
  lemma RespawnIffKilled(r: Roster, messages: seq<Message>, v: PlayerId)
    requires WellFormed(r) && Playable(messages) && AllSound(r)
    requires v in Ticked(r, messages).states
    ensures var m, after := Play(r, messages), Ticked(r, messages).states[v];
      && v in m.roster.states
      && after == if Kills(m.kills, v) > 0 then m.roster.states[v].(x := 0.0, y := 0.0, health := 100)
                  else m.roster.states[v]
  {
    var m := Play(r, messages);
    PlayKeepsFighting(r, messages);
    HitsExplainHealthAndKills(r, messages, v);
    SoundStart(r, v);
    DueExactlyAtZero(HealthBefore(r, v), Hits(m.hits, v));
    assert Fighting(m.roster.states[v]);
  }

  // ------------------------------------------------------------------ conservation

  function Worth(p: Player): int {
    p.score + p.health
  }

  function SumOf(ids: seq<PlayerId>, states: map<PlayerId, Player>): int
    requires forall i :: 0 <= i < |ids| ==> ids[i] in states
  {
    if ids == [] then 0 else SumOf(ids[..|ids| - 1], states) + Worth(states[ids[|ids| - 1]])
  }

  /** Total score plus total health. */
  function Total(r: Roster): int
    requires WellFormed(r)
  {
    SumOf(r.order, r.states)
  }

  lemma {:induction false} SumWithout(ids: seq<PlayerId>, states: map<PlayerId, Player>, id: PlayerId, p: Player)
    requires (forall i :: 0 <= i < |ids| ==> ids[i] in states) && id !in ids
    ensures SumOf(ids, states[id := p]) == SumOf(ids, states)
  {
    if ids != [] {
      SumWithout(ids[..|ids| - 1], states, id, p);
    }
  }

  lemma {:induction false} SumWith(ids: seq<PlayerId>, states: map<PlayerId, Player>, id: PlayerId, p: Player)
    requires (forall i :: 0 <= i < |ids| ==> ids[i] in states) && id in ids && Distinct(ids)
    ensures id in states
    ensures SumOf(ids, states[id := p]) == SumOf(ids, states) - Worth(states[id]) + Worth(p)
  {
    var rest, last := ids[..|ids| - 1], ids[|ids| - 1];
    if last == id {
      SumWithout(rest, states, id, p);
    } else {
      SumWith(rest, states, id, p);
    }
  }

  lemma SumAppended(ids: seq<PlayerId>, states: map<PlayerId, Player>, id: PlayerId, p: Player)
    requires (forall i :: 0 <= i < |ids| ==> ids[i] in states) && id !in ids
    ensures forall i :: 0 <= i < |ids + [id]| ==> (ids + [id])[i] in states[id := p]
    ensures SumOf(ids + [id], states[id := p]) == SumOf(ids, states) + Worth(p)
  {
    assert (ids + [id])[..|ids|] == ids;
    SumWithout(ids, states, id, p);
  }

  lemma PutTotal(r: Roster, id: PlayerId, p: Player)
    requires WellFormed(r)
    ensures WellFormed(Put(r, id, p))
    ensures Total(Put(r, id, p)) == Total(r) + Worth(p) - if id in r.states then Worth(r.states[id]) else 0
  {
    PutWellFormed(r, id, p);
    if id in r.states {
      SumWith(r.order, r.states, id, p);
    } else {
      SumAppended(r.order, r.states, id, p);
    }
  }

  lemma ShotTotal(r: Roster, id: PlayerId, victim: PlayerId)
    requires WellFormed(r) && id in r.states && victim in r.states && id != victim
    ensures WellFormed(Shot(r, id, victim)) && Total(Shot(r, id, victim)) == Total(r)
  {
    var hurt := r.states[victim].(health := r.states[victim].health - 10);
    PutTotal(r, victim, hurt);
    PutTotal(Put(r, victim, hurt), id, r.states[id].(score := r.states[id].score + 10));
  }

  lemma HandleTotal(r: Roster, id: PlayerId, c: Input)
    requires WellFormed(r) && c.Command?
    ensures var o := Handle(r, id, c);
      && WellFormed(o.roster) && |o.roster.order| >= |r.order|
      && Total(o.roster) == Total(r) + 100 * (|o.roster.order| - |r.order|)
  {
    ArrivedWellFormed(r, id, c);
    HandleWellFormed(r, id, c);
    PutTotal(r, id, NEWCOMER);
    PutTotal(Entered(r, id), id, MovedBy(Entered(r, id).states[id], c));
    var here := Arrived(r, id, c);
    if c.shoot && Target(here, id).Some? {
      ShotTotal(here, id, Target(here, id).value);
    }
  }

  lemma {:induction false} PlayTotal(r: Roster, messages: seq<Message>)
    requires WellFormed(r) && Playable(messages)
    ensures var after := Play(r, messages).roster;
      |after.order| >= |r.order| && Total(after) == Total(r) + 100 * (|after.order| - |r.order|)
  {
    if messages != [] {
      var rest, last := messages[..|messages| - 1], messages[|messages| - 1];
      PlayTotal(r, rest);
      HandleTotal(Play(r, rest).roster, last.sender, last.input);
    }
  }

  /** What respawning adds. */
  function TopUps(ids: seq<PlayerId>, states: map<PlayerId, Player>): nat
    requires forall i :: 0 <= i < |ids| ==> ids[i] in states
  {
    if ids == [] then 0
    else
      var p := states[ids[|ids| - 1]];
      TopUps(ids[..|ids| - 1], states) + if Dead(p) then 100 - p.health else 0
  }

  lemma {:induction false} RespawnSum(r: Roster, ids: seq<PlayerId>)
    requires forall i :: 0 <= i < |ids| ==> ids[i] in r.states
    ensures forall i :: 0 <= i < |ids| ==> ids[i] in Respawn(r).states
    ensures SumOf(ids, Respawn(r).states) == SumOf(ids, r.states) + TopUps(ids, r.states)
  {
    if ids != [] {
      RespawnSum(r, ids[..|ids| - 1]);
    }
  }

  /** A tick changes total score plus total health by exactly 100 for each player its
      inputs created, plus the top-ups of the players it respawned. */
  lemma TickConserves(r: Roster, messages: seq<Message>)
    requires WellFormed(r) && Playable(messages)
    ensures var fought, after := Play(r, messages).roster, Ticked(r, messages);
      Total(after) == Total(r) + 100 * (|after.order| - |r.order|) + TopUps(fought.order, fought.states)
  {
    PlayTotal(r, messages);
    RespawnSum(Play(r, messages).roster, Play(r, messages).roster.order);
  }
}
