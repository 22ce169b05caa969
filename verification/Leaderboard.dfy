// The leaderboard's database transaction: one match.end event applied to the
// players table at most once.
module Leaderboard {
  import opened Options
  import Elo

  type PlayerId = Elo.PlayerId

  datatype Row = Row(elo: int, wins: nat, losses: nat, totalMatches: nat, averageScore: real)

  /** The row that registration inserts. */
  const NEW_PLAYER := Row(Elo.INITIAL_RATING, 0, 0, 0, 0.0)

  /** Room ids are reused, so a match is identified together with its start time. */
  datatype MatchKey = MatchKey(matchId: string, startedAt: real)

  datatype MatchEnd = MatchEnd(
    matchId: string,
    startedAt: Option<real>,
    players: seq<PlayerId>,
    scores: map<PlayerId, int>,
    winner: Option<PlayerId>)
  {
    function Key(): MatchKey {
      MatchKey(matchId, if startedAt.Some? then startedAt.value else 0.0)
    }
  }

  /** The players and processed_matches tables. */
  datatype Tables = Tables(players: map<PlayerId, Row>, processed: set<MatchKey>)

  // ------------------------------------------------------------------ the rows

  ghost predicate StrictlySorted(ids: seq<PlayerId>) {
    forall i, j :: 0 <= i < j < |ids| ==> ids[i] < ids[j]
  }

  lemma HeadIsLeast(ids: seq<PlayerId>)
    requires StrictlySorted(ids) && ids != []
    ensures StrictlySorted(ids[1..]) && forall q <- ids[1..] :: ids[0] < q
    ensures forall q :: q in ids <==> q == ids[0] || q in ids[1..]
  {
    assert ids == [ids[0]] + ids[1..];
  }

  lemma PrependSorted(first: PlayerId, rest: seq<PlayerId>)
    requires StrictlySorted(rest) && forall q <- rest :: first < q
    ensures StrictlySorted([first] + rest)
    ensures forall q :: q in [first] + rest <==> q == first || q in rest
  {
    var all := [first] + rest;
    forall i, j | 0 <= i < j < |all| ensures all[i] < all[j] {
      assert all[j] == rest[j - 1] && all[j] in rest;
    }
  }

  function Insert(ids: seq<PlayerId>, p: PlayerId): (r: seq<PlayerId>)
    requires StrictlySorted(ids)
    ensures StrictlySorted(r)
    ensures forall q :: q in r <==> q in ids || q == p
  {
    if ids == [] || p < ids[0] then [p] + ids
    else if p == ids[0] then ids
    else
      HeadIsLeast(ids);
      var rest := Insert(ids[1..], p);
      PrependSorted(ids[0], rest);
      [ids[0]] + rest
  }

  /** The listed players that have a row, each once, in key order. */
  function KnownPlayers(table: map<PlayerId, Row>, listed: seq<PlayerId>): (r: seq<PlayerId>)
    ensures StrictlySorted(r)
    ensures forall p :: p in r <==> p in listed && p in table
  {
    if listed == [] then []
    else
      var rest := KnownPlayers(table, listed[1..]);
      if listed[0] in table then Insert(rest, listed[0]) else rest
  }

  function NewAverage(oldAverage: real, oldTotal: nat, score: int): real {
    (oldAverage * oldTotal as real + score as real) / (oldTotal + 1) as real
  }

  /** The running average stays the sum of all scores over the number of matches. */
  lemma AverageIsSumOverCount(oldAverage: real, oldTotal: nat, score: int)
    ensures NewAverage(oldAverage, oldTotal, score) * (oldTotal + 1) as real
            == oldAverage * oldTotal as real + score as real
  {
  }

  function EloMatch(P: real -> real, table: map<PlayerId, Row>, e: MatchEnd): Elo.Match {
    Elo.Match(map p | p in table && p in e.players :: table[p].elo as real, e.scores, P)
  }

  function Updated(row: Row, rating: real, won: bool, score: int): Row {
    Row(rating.Floor,
        row.wins + (if won then 1 else 0),
        row.losses + (if won then 0 else 1),
        row.totalMatches + 1,
        NewAverage(row.averageScore, row.totalMatches, score))
  }

  ghost function RowAfter(P: real -> real, table: map<PlayerId, Row>, e: MatchEnd, p: PlayerId): Row
    requires Elo.PowerLaw(P) && p in table && p in e.players
  {
    var rating := Elo.NewRating(EloMatch(P, table, e), KnownPlayers(table, e.players), Elo.K_FACTOR, p);
    Updated(table[p], rating, e.winner == Some(p), Elo.ScoreOf(e.scores, p))
  }

  ghost function PlayersAfter(P: real -> real, table: map<PlayerId, Row>, e: MatchEnd): map<PlayerId, Row>
    requires Elo.PowerLaw(P)
  {
    map p | p in table :: if p in e.players then RowAfter(P, table, e, p) else table[p]
  }

  /** The effect of the whole transaction. */
  ghost function TablesAfter(P: real -> real, t: Tables, e: MatchEnd): Tables
    requires Elo.PowerLaw(P)
  {
    if e.Key() in t.processed then t
    else Tables(PlayersAfter(P, t.players, e), t.processed + {e.Key()})
  }

  /** The table with these rows updated, and no other. */
  function RowsUpdated(table: map<PlayerId, Row>, e: MatchEnd, ids: seq<PlayerId>, ratings: map<PlayerId, real>)
    : map<PlayerId, Row>
    requires forall p <- ids :: p in ratings
  {
    map p | p in table ::
      if p in ids then Updated(table[p], ratings[p], e.winner == Some(p), Elo.ScoreOf(e.scores, p)) else table[p]
  }

  lemma OneMoreRow(table: map<PlayerId, Row>, e: MatchEnd, known: seq<PlayerId>, i: nat, ratings: map<PlayerId, real>)
    requires StrictlySorted(known) && i < |known| && forall p <- known :: p in table && p in ratings
    ensures var p, before := known[i], RowsUpdated(table, e, known[..i], ratings);
      && p in before && before[p] == table[p]
      && RowsUpdated(table, e, known[..i + 1], ratings)
         == before[p := Updated(table[p], ratings[p], e.winner == Some(p), Elo.ScoreOf(e.scores, p))]
  {
    assert known[i] !in known[..i];
    assert known[..i + 1] == known[..i] + [known[i]];
  }

  lemma RowsAreAfter(P: real -> real, table: map<PlayerId, Row>, e: MatchEnd, known: seq<PlayerId>,
                     ratings: map<PlayerId, real>)
    requires Elo.PowerLaw(P) && known == KnownPlayers(table, e.players) && forall p <- known :: p in ratings
    requires forall p <- known :: ratings[p] == Elo.NewRating(EloMatch(P, table, e), known, Elo.K_FACTOR, p)
    ensures RowsUpdated(table, e, known, ratings) == PlayersAfter(P, table, e)
  {
    forall p | p in table
      ensures RowsUpdated(table, e, known, ratings)[p] == PlayersAfter(P, table, e)[p]
    {
      assert p in known <==> p in e.players;
    }
  }

  datatype ApplyResult = Applied | Duplicate

  class Database {
    var players: map<PlayerId, Row>
    var processed: set<MatchKey>
    const P: real -> real

    constructor (P: real -> real)
      ensures this.P == P && Contents() == Tables(map[], {})
    {
      this.P, players, processed := P, map[], {};
    }

    function Contents(): Tables
      reads this
    {
      Tables(players, processed)
    }

    /** The UPDATE loop: one statement for each locked row. */
    method UpdateRows(e: MatchEnd, known: seq<PlayerId>, ratings: map<PlayerId, real>)
      requires StrictlySorted(known) && forall p <- known :: p in players && p in ratings
      modifies this`players
      ensures players == RowsUpdated(old(players), e, known, ratings)
    {
      for i := 0 to |known|
        invariant players == RowsUpdated(old(players), e, known[..i], ratings)
      {
        var p := known[i];
        OneMoreRow(old(players), e, known, i, ratings);
        players := players[p := Updated(players[p], ratings[p], e.winner == Some(p), Elo.ScoreOf(e.scores, p))];
      }
      assert known[..|known|] == known;
    }

    /** Everything between BEGIN and COMMIT. */
    method ApplyMatch(e: MatchEnd) returns (result: ApplyResult)
      requires Elo.PowerLaw(P)
      modifies this
      ensures Contents() == TablesAfter(P, old(Contents()), e)
      ensures result == Duplicate <==> e.Key() in old(processed)
    {
      if e.Key() in processed {
        return Duplicate;
      }
      processed := processed + {e.Key()};
      var known := KnownPlayers(players, e.players);
      var ratings := Elo.NewRatings(EloMatch(P, players, e), known, Elo.K_FACTOR);
      UpdateRows(e, known, ratings);
      RowsAreAfter(P, old(players), e, known, ratings);
      return Applied;
    }
  }

  // ---------------------------------------------------- what every match keeps

  function ScoreSum(row: Row): real {
    row.averageScore * row.totalMatches as real
  }

  lemma UpdatedAddsScore(row: Row, rating: real, won: bool, score: int)
    ensures ScoreSum(Updated(row, rating, won, score)) == ScoreSum(row) + score as real
  {
  }

  /** Two events are of the same match if and only if they name the same room and the same
      start, a missing one counting as 0. */
  lemma SameMatchIff(e: MatchEnd, f: MatchEnd)
    ensures e.Key() == f.Key() <==>
              && e.matchId == f.matchId
              && (if e.startedAt.Some? then e.startedAt.value else 0.0)
                 == (if f.startedAt.Some? then f.startedAt.value else 0.0)
  {
  }

  /** A room is reused: two of its matches, started at different times, each count once for a
      player listed in both, in either order, and however often they come again. */
  lemma ReusedRoomCountsBoth(P: real -> real, t: Tables, e: MatchEnd, f: MatchEnd, p: PlayerId)
    requires Elo.PowerLaw(P) && p in t.players && p in e.players && p in f.players
    requires e.matchId == f.matchId && e.startedAt.Some? && f.startedAt.Some? && e.startedAt != f.startedAt
    requires e.Key() !in t.processed && f.Key() !in t.processed
    ensures var t1 := TablesAfter(P, t, e); var t2 := TablesAfter(P, t1, f);
      && p in t1.players && t1.players[p].totalMatches == t.players[p].totalMatches + 1
      && p in t2.players && t2.players[p].totalMatches == t.players[p].totalMatches + 2
      && TablesAfter(P, t2, e) == t2 && TablesAfter(P, t2, f) == t2
  {
    SameMatchIff(e, f);
    MatchCountsOncePerPlayer(P, t.players, e, p);
    MatchCountsOncePerPlayer(P, TablesAfter(P, t, e).players, f, p);
  }

  lemma KnownPlayersTakePart(P: real -> real, table: map<PlayerId, Row>, e: MatchEnd)
    requires Elo.PowerLaw(P)
    ensures Elo.Lineup(EloMatch(P, table, e), KnownPlayers(table, e.players))
  {
    var known := KnownPlayers(table, e.players);
    assert forall i :: 0 <= i < |known| ==> known[i] in known;
  }

  /** Of two listed players with the same stored rating, the one with the higher score in the
      event ends no lower, and ends higher if at most 32 listed players have a row. */
  lemma HigherScoreStoresHigherRating(P: real -> real, table: map<PlayerId, Row>, e: MatchEnd, a: PlayerId, b: PlayerId)
    requires Elo.PowerLaw(P) && a in table && b in table && a in e.players && b in e.players
    requires table[a].elo == table[b].elo && Elo.ScoreOf(e.scores, a) > Elo.ScoreOf(e.scores, b)
    ensures a in PlayersAfter(P, table, e) && b in PlayersAfter(P, table, e)
    ensures PlayersAfter(P, table, e)[a].elo >= PlayersAfter(P, table, e)[b].elo
    ensures |KnownPlayers(table, e.players)| <= 32 ==> PlayersAfter(P, table, e)[a].elo > PlayersAfter(P, table, e)[b].elo
  {
    KnownPlayersTakePart(P, table, e);
    MatchCountsOncePerPlayer(P, table, e, a);
    MatchCountsOncePerPlayer(P, table, e, b);
    Elo.HigherScoreNeverEndsLower(EloMatch(P, table, e), KnownPlayers(table, e.players), Elo.K_FACTOR, a, b);
  }

  /** A match of two such players and nobody else with a row moves 16 points from the one with
      the lower score to the other, and none at equal scores. */
  lemma StoredDuel(P: real -> real, table: map<PlayerId, Row>, e: MatchEnd, a: PlayerId, b: PlayerId)
    requires Elo.PowerLaw(P) && a in table && b in table && a < b && a in e.players && b in e.players
    requires forall p <- e.players :: p in table ==> p == a || p == b
    requires table[a].elo == table[b].elo
    ensures a in PlayersAfter(P, table, e) && b in PlayersAfter(P, table, e)
    ensures var sa, sb := if a in e.scores then e.scores[a] else 0, if b in e.scores then e.scores[b] else 0;
      var won := if sa > sb then 16 else if sa < sb then -16 else 0;
      && PlayersAfter(P, table, e)[a].elo == table[a].elo + won
      && PlayersAfter(P, table, e)[b].elo == table[b].elo - won
  {
    KnownPlayersTakePart(P, table, e);
    var known := KnownPlayers(table, e.players);
    SortedPair(known, a, b);
    Elo.DuelOfEquals(EloMatch(P, table, e), known, table[a].elo);
    MatchCountsOncePerPlayer(P, table, e, a);
    MatchCountsOncePerPlayer(P, table, e, b);
  }

  lemma SortedPair(ids: seq<PlayerId>, a: PlayerId, b: PlayerId)
    requires StrictlySorted(ids) && a < b && forall p :: p in ids <==> p == a || p == b
    ensures ids == [a, b]
  {
    assert a in ids && b in ids;
    var i :| 0 <= i < |ids| && ids[i] == a;
    var j :| 0 <= j < |ids| && ids[j] == b;
    assert forall k :: 0 <= k < |ids| ==> ids[k] in ids;
    assert i < j && ids[0] in ids && ids[1] in ids && ids[|ids| - 1] in ids;
  }

  /** A match counts once for each listed player with a row, adds that player's score
      to the sum behind the average, stores the new rating, and touches nobody else. */
  lemma MatchCountsOncePerPlayer(P: real -> real, table: map<PlayerId, Row>, e: MatchEnd, p: PlayerId)
    requires Elo.PowerLaw(P) && p in table
    ensures p in PlayersAfter(P, table, e)
    ensures var row, row' := table[p], PlayersAfter(P, table, e)[p];
            && row'.wins + row'.losses - row'.totalMatches == row.wins + row.losses - row.totalMatches
            && row'.totalMatches == row.totalMatches + (if p in e.players then 1 else 0)
            && row'.wins == row.wins + (if p in e.players && e.winner == Some(p) then 1 else 0)
            && ScoreSum(row') == ScoreSum(row) + (if p in e.players && p in e.scores then e.scores[p] as real else 0.0)
            && (p !in e.players ==> row' == row)
            && (p in e.players ==>
                  row'.elo as real
                  == Elo.NewRating(EloMatch(P, table, e), KnownPlayers(table, e.players), Elo.K_FACTOR, p))
  {
    if p in e.players {
      var rating := Elo.NewRating(EloMatch(P, table, e), KnownPlayers(table, e.players), Elo.K_FACTOR, p);
      UpdatedAddsScore(table[p], rating, e.winner == Some(p), Elo.ScoreOf(e.scores, p));
    }
  }
}
