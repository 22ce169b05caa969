// When a higher score between equals fails to earn a higher rating: matches at whole-number
// ratings, as the players table stores them, in which rounding makes the two equal again.
module EloTies {
  import opened Elo

  /** The match around two equals, by position in the line-up: the two stand first, the next
      `strong` players are rated 400 above them, the rest as they are; and who of the others
      scores below both. All others score above both. */
  datatype Field = Field(strong: nat, below: nat -> bool)

  function RatingAt(f: Field, i: nat): int {
    if 2 <= i < 2 + f.strong then INITIAL_RATING + 400 else INITIAL_RATING
  }

  function ScoreAt(f: Field, i: nat): int {
    if i == 0 then 20 else if i == 1 then 10 else if f.below(i) then 0 else 30
  }

  ghost predicate Distinct(ids: seq<PlayerId>) {
    forall i, j :: 0 <= i < j < |ids| ==> ids[i] != ids[j]
  }

  ghost function PlaceOf(ids: seq<PlayerId>, p: PlayerId): (i: nat)
    requires p in ids
    ensures i < |ids| && ids[i] == p
  {
    var i: nat :| i < |ids| && ids[i] == p;
    i
  }

  ghost function MatchOf(P: real -> real, ids: seq<PlayerId>, f: Field): Match {
    Match(map p | p in ids :: RatingAt(f, PlaceOf(ids, p)) as real, map p | p in ids :: ScoreAt(f, PlaceOf(ids, p)), P)
  }

  lemma MatchAt(P: real -> real, ids: seq<PlayerId>, f: Field, i: nat)
    requires Distinct(ids) && i < |ids|
    ensures var m := MatchOf(P, ids, f);
      ids[i] in m.ratings && m.ratings[ids[i]] == RatingAt(f, i) as real && ScoreOf(m.scores, ids[i]) == ScoreAt(f, i)
  {
    assert PlaceOf(ids, ids[i]) == i;
  }

  lemma MatchIsLineup(P: real -> real, ids: seq<PlayerId>, f: Field)
    requires PowerLaw(P) && Distinct(ids)
    ensures Lineup(MatchOf(P, ids, f), ids) && Whole(MatchOf(P, ids, f))
  {
    var m := MatchOf(P, ids, f);
    forall i | 0 <= i < |ids| ensures ids[i] in m.ratings {
      MatchAt(P, ids, f, i);
    }
  }

  /** Ratings as the integer column stores them. */
  ghost predicate Whole(m: Match) {
    forall p <- m.ratings :: m.ratings[p] == m.ratings[p].Floor as real
  }

  /** What each of the two equals earns from the player at position i. */
  ghost function GainAt(P: real -> real, f: Field, i: nat): real
    requires PowerLaw(P)
  {
    (if f.below(i) then 1.0 else 0.0)
    - if i < 2 + f.strong then Expected(P, INITIAL_RATING as real, (INITIAL_RATING + 400) as real) else 0.5
  }

  /** What each of them earns from the others among the first n. */
  ghost function Standing(P: real -> real, f: Field, n: nat): real
    requires PowerLaw(P)
  {
    if n <= 2 then 0.0 else Standing(P, f, n - 1) + GainAt(P, f, n - 1)
  }

  lemma FieldGain(P: real -> real, ids: seq<PlayerId>, f: Field, x: nat, i: nat)
    requires PowerLaw(P) && Distinct(ids) && x < 2 <= i < |ids|
    ensures var m := MatchOf(P, ids, f);
      && ids[x] in m.ratings && ids[i] in m.ratings && ids[x] != ids[i]
      && Gain(m, ids[x], ids[i]) == GainAt(P, f, i)
  {
    MatchAt(P, ids, f, x);
    MatchAt(P, ids, f, i);
    ExpectedComplement(P, INITIAL_RATING as real, INITIAL_RATING as real);
  }

  lemma DuelGain(P: real -> real, ids: seq<PlayerId>, f: Field)
    requires PowerLaw(P) && Distinct(ids) && |ids| >= 2
    ensures var m := MatchOf(P, ids, f);
      && ids[0] in m.ratings && ids[1] in m.ratings
      && Gain(m, ids[0], ids[1]) == 0.5 && Gain(m, ids[1], ids[0]) == -0.5
  {
    MatchAt(P, ids, f, 0);
    MatchAt(P, ids, f, 1);
    ExpectedComplement(P, INITIAL_RATING as real, INITIAL_RATING as real);
  }

  lemma DeltaNext(m: Match, ids: seq<PlayerId>, a: PlayerId, n: nat)
    requires Lineup(m, ids) && n < |ids| && a in m.ratings
    ensures Delta(m, a, ids[..n + 1]) == Delta(m, a, ids[..n]) + if a == ids[n] then 0.0 else Gain(m, a, ids[n])
  {
    assert ids[..n + 1][..n] == ids[..n];
  }

  lemma DuelDelta(P: real -> real, m: Match, ids: seq<PlayerId>, f: Field)
    requires PowerLaw(P) && Distinct(ids) && |ids| >= 2 && m == MatchOf(P, ids, f) && Lineup(m, ids)
    ensures Delta(m, ids[0], ids[..2]) == 0.5 && Delta(m, ids[1], ids[..2]) == -0.5
  {
    DuelGain(P, ids, f);
    forall x | x in {0, 1} ensures Delta(m, ids[x], ids[..2]) == 0.5 - x as real {
      DeltaNext(m, ids, ids[x], 0);
      DeltaNext(m, ids, ids[x], 1);
    }
  }

  ghost predicate EarnsAt(P: real -> real, m: Match, ids: seq<PlayerId>, f: Field, a: PlayerId, i: nat)
    requires PowerLaw(P) && Lineup(m, ids) && a in m.ratings && i < |ids|
  {
    a != ids[i] && Gain(m, a, ids[i]) == GainAt(P, f, i)
  }

  lemma {:induction false} DeltaFromOthers(P: real -> real, m: Match, ids: seq<PlayerId>, f: Field, a: PlayerId, n: nat)
    requires PowerLaw(P) && Lineup(m, ids) && a in m.ratings && 2 <= n <= |ids|
    requires forall i :: 2 <= i < n ==> EarnsAt(P, m, ids, f, a, i)
    ensures Delta(m, a, ids[..n]) == Delta(m, a, ids[..2]) + Standing(P, f, n)
  {
    if n > 2 {
      DeltaFromOthers(P, m, ids, f, a, n - 1);
      assert EarnsAt(P, m, ids, f, a, n - 1);
      DeltaNext(m, ids, a, n - 1);
    }
  }

  /** The surplus of each of the two equals. */
  lemma FieldDelta(P: real -> real, m: Match, ids: seq<PlayerId>, f: Field, x: nat)
    requires PowerLaw(P) && Distinct(ids) && |ids| >= 2 && m == MatchOf(P, ids, f) && x < 2
    ensures Lineup(m, ids) && Whole(m) && ids[x] in m.ratings
    ensures m.ratings[ids[x]] == INITIAL_RATING as real && ScoreOf(m.scores, ids[x]) == ScoreAt(f, x)
    ensures Delta(m, ids[x], ids) == 0.5 - x as real + Standing(P, f, |ids|)
  {
    MatchIsLineup(P, ids, f);
    MatchAt(P, ids, f, x);
    DuelDelta(P, m, ids, f);
    forall i | 2 <= i < |ids| ensures EarnsAt(P, m, ids, f, ids[x], i) {
      FieldGain(P, ids, f, x, i);
    }
    DeltaFromOthers(P, m, ids, f, ids[x], |ids|);
    assert ids[..|ids|] == ids;
  }

  // ------------------------------------------------------------------- three fields

  /** Everybody equal, the others alternately above and below. */
  function Alternating(): Field {
    Field(0, (i: nat) => i % 2 == 1)
  }

  lemma {:induction false} AlternatingStanding(P: real -> real, n: nat)
    requires PowerLaw(P) && n >= 2
    ensures Standing(P, Alternating(), n) == if n % 2 == 0 then 0.0 else -0.5
  {
    if n > 2 {
      AlternatingStanding(P, n - 1);
    }
  }

  /** Eleven players 400 points stronger, of whom the two equals beat one, and the rest
      alternately above and below. */
  function WithElevenStronger(): Field {
    Field(11, (i: nat) => i == 2 || (i >= 13 && i % 2 == 0))
  }

  lemma {:induction false} ElevenStronger(P: real -> real, n: nat)
    requires PowerLaw(P) && P(400.0) == 10.0 && 3 <= n <= 13
    ensures Standing(P, WithElevenStronger(), n) == (13 - n) as real / 11.0
  {
    var f := WithElevenStronger();
    assert Expected(P, INITIAL_RATING as real, (INITIAL_RATING + 400) as real) == 1.0 / 11.0;
    if n == 3 {
      assert Standing(P, f, 2) == 0.0;
    } else {
      ElevenStronger(P, n - 1);
    }
  }

  lemma {:induction false} ElevenStrongerStanding(P: real -> real, n: nat)
    requires PowerLaw(P) && P(400.0) == 10.0 && n >= 13
    ensures Standing(P, WithElevenStronger(), n) == if n % 2 == 1 then 0.0 else -0.5
  {
    if n == 13 {
      ElevenStronger(P, 13);
    } else {
      ElevenStrongerStanding(P, n - 1);
    }
  }

  /** Everybody equal, the first `above` of the others above and the rest below. */
  function Ranked(above: nat): Field {
    Field(0, (i: nat) => i >= 2 + above)
  }

  lemma {:induction false} RankedStanding(P: real -> real, above: nat, n: nat)
    requires PowerLaw(P) && n >= 2
    ensures Standing(P, Ranked(above), n) == if n <= 2 + above then -((n - 2) as real) / 2.0 else (n - 2 - 2 * above) as real / 2.0
  {
    if n > 2 {
      RankedStanding(P, above, n - 1);
    }
  }

  // --------------------------------------------------------------------------- ties

  lemma RoundsToEven(x: real)
    requires INITIAL_RATING as real - 0.5 <= x <= INITIAL_RATING as real + 0.5
    ensures Round(x) == INITIAL_RATING
  {
  }

  /** Two equals half a point above and below par end where they were. */
  lemma HalfPointsTie(P: real -> real, ids: seq<PlayerId>, f: Field, k: real)
    requires PowerLaw(P) && Distinct(ids) && |ids| >= 2 && 0.0 <= k <= (|ids| - 1) as real
    requires Standing(P, f, |ids|) == 0.0
    ensures Ties(MatchOf(P, ids, f), ids, k)
  {
    var m, n := MatchOf(P, ids, f), |ids|;
    FieldDelta(P, m, ids, f, 0);
    FieldDelta(P, m, ids, f, 1);
    ChangeOfOne(k, n);
    ChangeIsLinear(k, 0.5, 0.5, n);
    ChangeIsLinear(k, 0.5, -0.5, n);
    RoundsToEven(Unrounded(m, ids, k, ids[0]));
    RoundsToEven(Unrounded(m, ids, k, ids[1]));
  }

  /** The first two of the line-up are rated the same, the first scores more, and both end
      with the same rating. */
  ghost predicate Ties(m: Match, ids: seq<PlayerId>, k: real) {
    && Lineup(m, ids) && Whole(m) && |ids| >= 2
    && m.ratings[ids[0]] == m.ratings[ids[1]] && ScoreOf(m.scores, ids[0]) > ScoreOf(m.scores, ids[1])
    && NewRating(m, ids, k, ids[0]) == NewRating(m, ids, k, ids[1])
  }

  ghost function Ending(k: real, n: nat, j: int): int
    requires n >= 2
  {
    Round(INITIAL_RATING as real + Change(k, j as real, n))
  }

  lemma EndingsRise(k: real, n: nat, j: int)
    requires n >= 2 && k >= 0.0
    ensures Ending(k, n, j - 1) <= Ending(k, n, j)
  {
    ChangeIsMonotone(k, (j - 1) as real, j as real, n);
    RoundOrder(INITIAL_RATING as real + Change(k, (j - 1) as real, n), INITIAL_RATING as real + Change(k, j as real, n));
  }

  /** Fewer endings than places: two of them coincide. */
  lemma SomeEndingsCoincide(k: real, n: nat, h: nat) returns (j: nat)
    requires n == 2 * h + 1 && h >= 1 && 0.0 <= k < (n - 2) as real
    ensures 1 <= j <= h && Ending(k, n, j) == Ending(k, n, j - 1)
  {
    j := 1;
    ChangeIsLinear(k, 0.0, 0.0, n);
    RoundKeepsIntegers(INITIAL_RATING);
    while Ending(k, n, j) != Ending(k, n, j - 1)
      invariant 1 <= j <= h && Ending(k, n, j - 1) >= INITIAL_RATING + j - 1
      decreases h - j
    {
      EndingsRise(k, n, j);
      if j == h {
        TopEnding(k, n, h);
      }
      j := j + 1;
    }
  }

  lemma TopEnding(k: real, n: nat, h: nat)
    requires n == 2 * h + 1 && h >= 1 && 0.0 <= k < (n - 2) as real
    ensures Ending(k, n, h) < INITIAL_RATING + h
  {
    ChangeAtTheEnds(k, n);
    ChangeIsLinear(k, h as real, h as real, n);
    assert h as real + h as real == (n - 1) as real;
  }

  lemma RankedSurplus(P: real -> real, n: nat, h: nat, j: nat)
    requires PowerLaw(P) && n == 2 * h + 1 && 1 <= j <= h
    ensures Standing(P, Ranked(h - j), n) == j as real - 0.5
  {
    RankedStanding(P, h - j, n);
  }

  lemma EndsAt(m: Match, ids: seq<PlayerId>, k: real, a: PlayerId, j: int)
    requires Lineup(m, ids) && |ids| >= 2 && a in m.ratings
    requires m.ratings[a] == INITIAL_RATING as real && Delta(m, a, ids) == j as real
    ensures NewRating(m, ids, k, a) == Ending(k, |ids|, j) as real
  {
  }

  lemma RankedTie(P: real -> real, ids: seq<PlayerId>, k: real, h: nat) returns (m: Match)
    requires PowerLaw(P) && Distinct(ids) && |ids| == 2 * h + 1 && h >= 1 && 0.0 <= k < (|ids| - 2) as real
    ensures m.P == P && Ties(m, ids, k)
  {
    var n := |ids|;
    var j := SomeEndingsCoincide(k, n, h);
    m := MatchOf(P, ids, Ranked(h - j));
    FieldDelta(P, m, ids, Ranked(h - j), 0);
    FieldDelta(P, m, ids, Ranked(h - j), 1);
    RankedSurplus(P, n, h, j);
    EndsAt(m, ids, k, ids[0], j);
    EndsAt(m, ids, k, ids[1], j - 1);
  }

  /** The bound K > n - 1 cannot be lowered, for ratings that the table can hold: for every
      smaller K there is a match of n players in which a higher score between equals earns no
      higher rating. For even n, and for odd n >= K + 3, everybody in it has the initial
      rating; for the odd n in between, from 13 on, eleven players are rated 400 above. */
  lemma StrictOrderNeedsLargeK(P: real -> real, ids: seq<PlayerId>, k: real) returns (m: Match)
    requires PowerLaw(P) && Distinct(ids) && |ids| >= 2 && 0.0 <= k <= (|ids| - 1) as real
    requires |ids| % 2 == 0 || k < (|ids| - 2) as real || (|ids| >= 13 && P(400.0) == 10.0)
    ensures m.P == P && Ties(m, ids, k)
  {
    if |ids| % 2 == 0 {
      AlternatingStanding(P, |ids|);
      HalfPointsTie(P, ids, Alternating(), k);
      m := MatchOf(P, ids, Alternating());
    } else if k < (|ids| - 2) as real {
      m := RankedTie(P, ids, k, |ids| / 2);
    } else {
      ElevenStrongerStanding(P, |ids|);
      HalfPointsTie(P, ids, WithElevenStronger(), k);
      m := MatchOf(P, ids, WithElevenStronger());
    }
  }

  /** Equals of whom the first scores more. */
  ghost predicate Ahead(m: Match, ids: seq<PlayerId>, a: PlayerId, b: PlayerId) {
    && Lineup(m, ids) && Whole(m) && a in ids && b in ids
    && m.ratings[a] == m.ratings[b] && ScoreOf(m.scores, a) > ScoreOf(m.scores, b)
  }

  /** In every match of n players at stored ratings, the higher score between equals wins. */
  ghost predicate HigherScoreWins(P: real -> real, n: nat) {
    forall m: Match, ids: seq<PlayerId>, a: PlayerId, b: PlayerId :: m.P == P && |ids| == n && Ahead(m, ids, a, b) ==>
      NewRating(m, ids, K_FACTOR, a) > NewRating(m, ids, K_FACTOR, b)
  }

  /** With K = 32 that is so exactly up to 32 players; all that is used of the base is that
      400 points mean odds of ten to one, and that only for n = 33. */
  lemma HigherScoreWinsIffAtMost32(P: real -> real, n: nat)
    requires PowerLaw(P) && (n == 33 ==> P(400.0) == 10.0)
    ensures HigherScoreWins(P, n) <==> n <= 32
  {
    if n <= 32 {
      forall m: Match, ids: seq<PlayerId>, a: PlayerId, b: PlayerId | m.P == P && |ids| == n && Ahead(m, ids, a, b)
        ensures NewRating(m, ids, K_FACTOR, a) > NewRating(m, ids, K_FACTOR, b)
      {
        HigherScoreNeverEndsLower(m, ids, K_FACTOR, a, b);
      }
    } else {
      var ids := seq(n, i requires 0 <= i < n => i);
      var m := StrictOrderNeedsLargeK(P, ids, K_FACTOR);
      assert Ahead(m, ids, ids[0], ids[1]);
    }
  }
}
