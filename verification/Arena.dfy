// The players of a match and the rules of one tick: inputs move and shoot, then the
// dead respawn. The player dictionary keeps its insertion order, because the search for
// the nearest enemy breaks ties by it.
module Arena {
  import opened Options

  type PlayerId = nat

  datatype Player = Player(x: real, y: real, health: int, score: int, connected: bool)

  const NEWCOMER := Player(0.0, 0.0, 100, 0, true)

  /** The player dictionary, in insertion order. */
  datatype Roster = Roster(order: seq<PlayerId>, states: map<PlayerId, Player>)

  const NOBODY := Roster([], map[])

  ghost predicate Distinct(ids: seq<PlayerId>) {
    forall i, j :: 0 <= i < j < |ids| ==> ids[i] != ids[j]
  }

  ghost predicate Listed(r: Roster) {
    forall i :: 0 <= i < |r.order| ==> r.order[i] in r.states
  }

  ghost predicate WellFormed(r: Roster) {
    && Distinct(r.order)
    && Listed(r)
    && (forall id <- r.states :: id in r.order)
  }

  function Put(r: Roster, id: PlayerId, p: Player): Roster {
    Roster(if id in r.states then r.order else r.order + [id], r.states[id := p])
  }

  /** One client message; a message of the wrong shape makes the tick raise. */
  datatype Input = Malformed | Command(dx: real, dy: real, speed: real, shoot: bool)

  function Clamp(v: real): (c: real)
    ensures -500.0 <= c <= 500.0
    ensures -500.0 <= v <= 500.0 ==> c == v
  {
    if v > 500.0 then 500.0 else if v < -500.0 then -500.0 else v
  }

  function MovedBy(p: Player, c: Input): Player
    requires c.Command?
  {
    p.(x := Clamp(p.x + c.dx * c.speed), y := Clamp(p.y + c.dy * c.speed))
  }

  function Dist2(p: Player, q: Player): real {
    (p.x - q.x) * (p.x - q.x) + (p.y - q.y) * (p.y - q.y)
  }

  const RANGE2 := 40000.0

  predicate Enemy(r: Roster, id: PlayerId, e: PlayerId) {
    e in r.states && e != id && r.states[e].connected
  }

  /** Distance squared from player `id` to the k-th player. */
  function Gap(r: Roster, id: PlayerId, k: nat): real
    requires id in r.states && k < |r.order| && r.order[k] in r.states
  {
    Dist2(r.states[r.order[k]], r.states[id])
  }

  /** Position of the nearest enemy among the first k players, the first of them on a tie. */
  function NearestAmong(r: Roster, id: PlayerId, k: nat): (best: Option<nat>)
    requires k <= |r.order| && id in r.states && Listed(r)
    ensures best.Some? ==> best.value < k && Enemy(r, id, r.order[best.value])
  {
    if k == 0 then None
    else
      var best := NearestAmong(r, id, k - 1);
      if !Enemy(r, id, r.order[k - 1]) then best
      else if best.None? || Gap(r, id, k - 1) < Gap(r, id, best.value) then Some(k - 1)
      else best
  }

  function Target(r: Roster, id: PlayerId): (t: Option<PlayerId>)
    requires id in r.states && Listed(r)
    ensures t.Some? ==> Enemy(r, id, t.value)
  {
    var best := NearestAmong(r, id, |r.order|);
    if best.Some? && Gap(r, id, best.value) < RANGE2 then Some(r.order[best.value]) else None
  }

  /** The k-th player is an enemy, none of the first n is nearer, and none before it as near. */
  ghost predicate FirstNearest(r: Roster, id: PlayerId, n: nat, k: nat)
    requires Listed(r) && id in r.states && k < n <= |r.order|
  {
    && Enemy(r, id, r.order[k])
    && (forall j: nat :: j < n && Enemy(r, id, r.order[j]) ==> Gap(r, id, k) <= Gap(r, id, j))
    && (forall j: nat :: j < k && Enemy(r, id, r.order[j]) ==> Gap(r, id, k) < Gap(r, id, j))
  }

  lemma {:induction false} NearestAmongIsFirst(r: Roster, id: PlayerId, n: nat)
    requires Listed(r) && id in r.states && n <= |r.order|
    ensures NearestAmong(r, id, n).None? ==> forall j :: 0 <= j < n ==> !Enemy(r, id, r.order[j])
    ensures NearestAmong(r, id, n).Some? ==> FirstNearest(r, id, n, NearestAmong(r, id, n).value)
  {
    if n > 0 {
      NearestAmongIsFirst(r, id, n - 1);
    }
  }

  /** A shot hits the k-th player exactly when that player is the nearest enemy within
      200, the earliest in the dictionary among equally near ones. */
  lemma ShotHitsNearest(r: Roster, id: PlayerId, k: nat)
    requires WellFormed(r) && id in r.states && k < |r.order|
    ensures Target(r, id) == Some(r.order[k]) <==> FirstNearest(r, id, |r.order|, k) && Gap(r, id, k) < RANGE2
  {
    NearestAmongIsFirst(r, id, |r.order|);
  }

  method FindNearestEnemy(r: Roster, id: PlayerId) returns (t: Option<PlayerId>)
    requires Listed(r)
    ensures t == if id in r.states then Target(r, id) else None
  {
    if id !in r.states {
      return None;
    }
    var nearest: Option<nat> := None;
    for k := 0 to |r.order|
      invariant nearest == NearestAmong(r, id, k)
    {
      if r.order[k] == id || !r.states[r.order[k]].connected {
        continue;
      }
      if nearest.None? || Gap(r, id, k) < Gap(r, id, nearest.value) {
        nearest := Some(k);
      }
    }
    return if nearest.Some? && Gap(r, id, nearest.value) < RANGE2 then Some(r.order[nearest.value]) else None;
  }

  // ------------------------------------------------------------------ one input

  /** The kill record of a hit that left its victim at zero health or below. */
  datatype Kill = Kill(killer: PlayerId, victim: PlayerId)

  /** The world after an input, and whom it hit. */
  datatype Outcome = Outcome(roster: Roster, hit: Option<PlayerId>)

  function Entered(r: Roster, id: PlayerId): Roster {
    if id in r.states then r else Put(r, id, NEWCOMER)
  }

  lemma PutWellFormed(r: Roster, id: PlayerId, p: Player)
    requires WellFormed(r)
    ensures WellFormed(Put(r, id, p))
  {
  }

  /** After the shooter has moved. */
  function Arrived(r: Roster, id: PlayerId, c: Input): Roster
    requires c.Command?
  {
    var there := Entered(r, id);
    Put(there, id, MovedBy(there.states[id], c))
  }

  lemma ArrivedWellFormed(r: Roster, id: PlayerId, c: Input)
    requires WellFormed(r) && c.Command?
    ensures WellFormed(Arrived(r, id, c))
  {
  }

  function Shot(r: Roster, id: PlayerId, victim: PlayerId): Roster
    requires id in r.states && victim in r.states
  {
    r.(states := r.states[victim := r.states[victim].(health := r.states[victim].health - 10)]
                         [id := r.states[id].(score := r.states[id].score + 10)])
  }

  function Handle(r: Roster, id: PlayerId, c: Input): (o: Outcome)
    requires WellFormed(r) && c.Command?
    ensures o.hit.Some? ==> o.hit.value in o.roster.states
  {
    ArrivedWellFormed(r, id, c);
    var here := Arrived(r, id, c);
    var target := if c.shoot then Target(here, id) else None;
    if target.Some? then Outcome(Shot(here, id, target.value), target) else Outcome(here, None)
  }

  lemma HandleWellFormed(r: Roster, id: PlayerId, c: Input)
    requires WellFormed(r) && c.Command?
    ensures WellFormed(Handle(r, id, c).roster)
  {
  }

  // ------------------------------------------------------------------ one tick

  datatype Message = Message(sender: PlayerId, input: Input)

  ghost predicate Playable(messages: seq<Message>) {
    forall i :: 0 <= i < |messages| ==> messages[i].input.Command?
  }

  /** What the queued inputs lead to: the players, the hits in order, the kill records. */
  datatype Melee = Melee(roster: Roster, hits: seq<PlayerId>, kills: seq<Kill>)

  function Record(m: Melee, shooter: PlayerId, o: Outcome): Melee
    requires o.hit.Some? ==> o.hit.value in o.roster.states
  {
    if o.hit.None? then m.(roster := o.roster)
    else
      var victim := o.hit.value;
      Melee(o.roster, m.hits + [victim],
            if o.roster.states[victim].health <= 0 then m.kills + [Kill(shooter, victim)] else m.kills)
  }

  /** The inputs in queue order. */
  function Play(r: Roster, messages: seq<Message>): (m: Melee)
    requires WellFormed(r) && Playable(messages)
    ensures WellFormed(m.roster)
  {
    if messages == [] then Melee(r, [], [])
    else
      var before, last := Play(r, messages[..|messages| - 1]), messages[|messages| - 1];
      HandleWellFormed(before.roster, last.sender, last.input);
      Record(before, last.sender, Handle(before.roster, last.sender, last.input))
  }

  predicate Dead(p: Player) {
    p.connected && p.health <= 0
  }

  function Revived(p: Player): Player {
    if Dead(p) then p.(x := 0.0, y := 0.0, health := 100) else p
  }

  function Respawn(r: Roster): Roster {
    r.(states := map id | id in r.states :: Revived(r.states[id]))
  }

  /** The players after one tick's inputs and respawns. */
  function Ticked(r: Roster, messages: seq<Message>): (after: Roster)
    requires WellFormed(r) && Playable(messages)
    ensures WellFormed(after)
  {
    var fought := Play(r, messages).roster;
    var after := Respawn(fought);
    assert forall id :: id in after.states <==> id in fought.states;
    after
  }
}
