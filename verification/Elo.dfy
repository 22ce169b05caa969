// Pairwise Elo for matches of any size. Ratings are reals; the power function
// 10^(x/400) is an abstract `P` known only through PowerLaw.
module Elo {
  type PlayerId = nat

  const K_FACTOR: real := 32.0
  const INITIAL_RATING := 1200

  /** All that is used of x |-> 10^(x/400): positive, P(x) P(-x) = 1, and monotone. */
  ghost predicate PowerLaw(P: real -> real) {
    forall x, y :: PowerLawAt(P, x, y)
  }

  ghost predicate PowerLawAt(P: real -> real, x: real, y: real) {
    P(x) > 0.0 && P(x) * P(-x) == 1.0 && (x <= y ==> P(x) <= P(y))
  }

  function Expected(P: real -> real, ratingA: real, ratingB: real): (e: real)
    requires PowerLaw(P)
  {
    assert PowerLawAt(P, ratingB - ratingA, 0.0);
    1.0 / (1.0 + P(ratingB - ratingA))
  }

  lemma ExpectedComplement(P: real -> real, a: real, b: real)
    requires PowerLaw(P)
    ensures 0.0 < Expected(P, a, b) < 1.0
    ensures Expected(P, a, b) + Expected(P, b, a) == 1.0
    ensures a == b ==> Expected(P, a, b) == 0.5
  {
    var p, q := P(b - a), P(a - b);
    assert PowerLawAt(P, b - a, a - b) && PowerLawAt(P, a - b, b - a);
    assert a - b == -(b - a);
    assert p * q == 1.0;
    assert (1.0 + p) * (1.0 + q) == 2.0 + p + q;
    assert 1.0 / (1.0 + p) + 1.0 / (1.0 + q) == ((1.0 + q) + (1.0 + p)) / ((1.0 + p) * (1.0 + q));
  }

  lemma ExpectedMonotone(P: real -> real, a: real, a': real, b: real)
    requires PowerLaw(P) && a <= a'
    ensures Expected(P, a, b) <= Expected(P, a', b)
    ensures Expected(P, b, a') <= Expected(P, b, a)
  {
    assert PowerLawAt(P, b - a', b - a);
    Reciprocal(1.0 + P(b - a'), 1.0 + P(b - a));
    ExpectedComplement(P, a, b);
    ExpectedComplement(P, a', b);
  }

  /** The odds: for x points of difference the stronger is expected to get P(x) times what
      the weaker is; with the sum of 1 this leaves one expectation only. */
  lemma ExpectedOdds(P: real -> real, a: real, b: real)
    requires PowerLaw(P)
    ensures Expected(P, a, b) == P(a - b) * Expected(P, b, a)
  {
    var p, q := P(b - a), P(a - b);
    assert PowerLawAt(P, b - a, a - b) && PowerLawAt(P, a - b, b - a);
    assert a - b == -(b - a);
    assert p * q == 1.0;
    assert q * (1.0 + p) == q + 1.0;
    OddsQuotient(p, q);
  }

  lemma OddsQuotient(p: real, q: real)
    requires p > 0.0 && q > 0.0 && q * (1.0 + p) == 1.0 + q
    ensures 1.0 / (1.0 + p) == q * (1.0 / (1.0 + q))
  {
    var u, v := 1.0 / (1.0 + p), 1.0 / (1.0 + q);
    assert u * (1.0 + p) == 1.0 && v * (1.0 + q) == 1.0;
    assert q * v * (1.0 + p) == v * (q * (1.0 + p));
    assert (u - q * v) * (1.0 + p) == 0.0;
  }

  /** Powers of ten to a multiple of 1/400. */
  ghost predicate BaseTen(P: real -> real) {
    PowerLaw(P) && P(400.0) == 10.0 && forall x, y :: Multiplies(P, x, y)
  }

  ghost predicate Multiplies(P: real -> real, x: real, y: real) {
    P(x + y) == P(x) * P(y)
  }

  function TenTo(n: nat): real {
    if n == 0 then 1.0 else 10.0 * TenTo(n - 1)
  }

  lemma {:induction false} PowersOfTen(P: real -> real, n: nat)
    requires BaseTen(P)
    ensures P(400.0 * n as real) == TenTo(n)
  {
    if n == 0 {
      assert PowerLawAt(P, 0.0, 0.0);
      RootOfOne(P(0.0));
    } else {
      PowersOfTen(P, n - 1);
      assert Multiplies(P, 400.0, 400.0 * (n - 1) as real);
      assert 400.0 + 400.0 * (n - 1) as real == 400.0 * n as real;
    }
  }

  lemma RootOfOne(p: real)
    requires p > 0.0 && p * p == 1.0
    ensures p == 1.0
  {
    assert (p - 1.0) * (p + 1.0) == 0.0;
  }

  /** Each 400 points multiply the odds by ten. */
  lemma FourHundredPointsAreTenToOne(P: real -> real, a: real, n: nat)
    requires BaseTen(P)
    ensures Expected(P, a + 400.0 * n as real, a) == TenTo(n) * Expected(P, a, a + 400.0 * n as real)
  {
    PowersOfTen(P, n);
    ExpectedOdds(P, a + 400.0 * n as real, a);
    assert a + 400.0 * n as real - a == 400.0 * n as real;
  }

  lemma Reciprocal(u: real, v: real)
    requires 0.0 < u <= v
    ensures 1.0 / v <= 1.0 / u
  {
  }

  // ---------------------------------------------------------------- rounding

  /** r is the integer nearest to x; of two equally near ones, the even one. */
  predicate IsRounded(x: real, r: int) {
    && -0.5 <= r as real - x <= 0.5
    && ((r as real - x == 0.5 || r as real - x == -0.5) ==> r % 2 == 0)
  }

  ghost function Round(x: real): (r: int)
    ensures IsRounded(x, r)
  {
    RoundedExists(x);
    var r :| IsRounded(x, r);
    r
  }

  /** Python's round(). */
  method RoundHalfEven(x: real) returns (r: int)
    ensures r == Round(x)
  {
    var f := x.Floor;
    var d := x - f as real;
    r := if d < 0.5 || (d == 0.5 && f % 2 == 0) then f else f + 1;
    assert IsRounded(x, r);
    RoundedIsUnique(x, r, Round(x));
  }

  lemma RoundedExists(x: real)
    ensures exists r :: IsRounded(x, r)
  {
    var f := x.Floor;
    assert IsRounded(x, f) || IsRounded(x, f + 1);
  }

  lemma RoundedIsUnique(x: real, r: int, r': int)
    requires IsRounded(x, r) && IsRounded(x, r')
    ensures r == r'
  {
  }

  /** Rounding never swaps two numbers and separates numbers more than 1 apart. */
  lemma RoundOrder(x: real, y: real)
    ensures x <= y ==> Round(x) <= Round(y)
    ensures x + 1.0 < y ==> Round(x) < Round(y)
  {
  }

  lemma RoundKeepsIntegers(i: int)
    ensures Round(i as real) == i
  {
  }

  // ------------------------------------------------------------ rating change

  function ScoreOf(scores: map<PlayerId, int>, p: PlayerId): int {
    if p in scores then scores[p] else 0
  }

  function Actual(sa: int, sb: int): real {
    if sa > sb then 1.0 else if sa < sb then 0.0 else 0.5
  }

  datatype Match = Match(ratings: map<PlayerId, real>, scores: map<PlayerId, int>, P: real -> real)

  /** A match among `ids`: pairwise distinct and all rated. */
  ghost predicate Lineup(m: Match, ids: seq<PlayerId>) {
    && PowerLaw(m.P)
    && (forall i :: 0 <= i < |ids| ==> ids[i] in m.ratings)
    && (forall i, j :: 0 <= i < j < |ids| ==> ids[i] != ids[j])
  }

  /** What `a` earns from the head-to-head game against `b`. */
  ghost function Gain(m: Match, a: PlayerId, b: PlayerId): real
    requires PowerLaw(m.P) && a in m.ratings && b in m.ratings
  {
    Actual(ScoreOf(m.scores, a), ScoreOf(m.scores, b)) - Expected(m.P, m.ratings[a], m.ratings[b])
  }

  /** Sum of the gains of `a` against everyone else in `ids`. */
  ghost function Delta(m: Match, a: PlayerId, ids: seq<PlayerId>): real
    requires PowerLaw(m.P) && a in m.ratings && forall b <- ids :: b in m.ratings
  {
    if ids == [] then 0.0
    else
      var b := ids[|ids| - 1];
      Delta(m, a, ids[..|ids| - 1]) + if a == b then 0.0 else Gain(m, a, b)
  }

  /** The change that a score surplus of `delta` brings in a match of n players. */
  function Change(k: real, delta: real, n: nat): real
    requires n >= 2
  {
    k * delta / (n - 1) as real
  }

  /** The rating of `a` after the match, before rounding. */
  ghost function Unrounded(m: Match, ids: seq<PlayerId>, k: real, a: PlayerId): real
    requires Lineup(m, ids) && |ids| >= 2 && a in m.ratings
  {
    m.ratings[a] + Change(k, Delta(m, a, ids), |ids|)
  }

  lemma ChangeIsLinear(k: real, x: real, y: real, n: nat)
    requires n >= 2
    ensures Change(k, x + y, n) == Change(k, x, n) + Change(k, y, n)
    ensures Change(k, 0.0, n) == 0.0
  {
  }

  lemma ChangeIsMonotone(k: real, x: real, y: real, n: nat)
    requires n >= 2 && k >= 0.0 && x <= y
    ensures Change(k, x, n) <= Change(k, y, n)
  {
  }

  lemma Exceeds(q: real, y: real)
    requires y > 0.0 && q > 1.0
    ensures q * y > y
  {
  }

  lemma ChangeOfOne(k: real, n: nat)
    requires n >= 2
    ensures k > (n - 1) as real ==> Change(k, 1.0, n) > 1.0
    ensures 0.0 <= k <= (n - 1) as real ==> 0.0 <= Change(k, 1.0, n) <= 1.0
  {
    var opponents := (n - 1) as real;
    var q := Change(k, 1.0, n);
    assert q * opponents == k;
    if q > 1.0 { Exceeds(q, opponents); }
    if k >= 0.0 {
      ChangeIsMonotone(k, 0.0, 1.0, n);
      ChangeIsLinear(k, 0.0, 0.0, n);
    }
    assert (1.0 - q) * opponents == opponents - k;
  }

  lemma ChangeAtTheEnds(k: real, n: nat)
    requires n >= 2
    ensures Change(k, (n - 1) as real, n) == k
    ensures Change(k, -((n - 1) as real), n) == -k
  {
  }

  ghost function NewRating(m: Match, ids: seq<PlayerId>, k: real, a: PlayerId): real
    requires Lineup(m, ids) && a in m.ratings
  {
    if |ids| < 2 then m.ratings[a] else Round(Unrounded(m, ids, k, a)) as real
  }

  /** The inner loop of the rating update. */
  method SurplusOf(m: Match, a: PlayerId, ids: seq<PlayerId>) returns (delta: real)
    requires Lineup(m, ids) && a in m.ratings
    ensures delta == Delta(m, a, ids)
  {
    delta := 0.0;
    for j := 0 to |ids|
      invariant delta == Delta(m, a, ids[..j])
    {
      var b := ids[j];
      assert ids[..j + 1] == ids[..j] + [b];
      if a != b {
        var sa, sb := ScoreOf(m.scores, a), ScoreOf(m.scores, b);
        var actual := if sa > sb then 1.0 else if sa < sb then 0.0 else 0.5;
        delta := delta + (actual - Expected(m.P, m.ratings[a], m.ratings[b]));
      }
    }
    assert ids[..|ids|] == ids;
  }

  method NewRatings(m: Match, ids: seq<PlayerId>, k: real) returns (result: map<PlayerId, real>)
    requires Lineup(m, ids) && forall p :: p in m.ratings <==> p in ids
    ensures result.Keys == m.ratings.Keys
    ensures forall a <- result :: result[a] == NewRating(m, ids, k, a)
  {
    if |ids| < 2 {
      return m.ratings;
    }
    result := map[];
    for i := 0 to |ids|
      invariant forall p :: p in result <==> p in ids[..i]
      invariant forall a <- result :: result[a] == NewRating(m, ids, k, a)
    {
      var a := ids[i];
      var delta := SurplusOf(m, a, ids);
      var rating := RoundHalfEven(m.ratings[a] + Change(k, delta, |ids|));
      assert ids[..i + 1] == ids[..i] + [a];
      result := result[a := rating as real];
    }
    assert ids[..|ids|] == ids;
  }

  // ---------------------------------------------------------------- zero sum

  lemma GainAntisymmetric(m: Match, a: PlayerId, b: PlayerId)
    requires PowerLaw(m.P) && a in m.ratings && b in m.ratings
    ensures Gain(m, a, b) == -Gain(m, b, a)
    ensures -1.0 < Gain(m, a, b) < 1.0
  {
    ExpectedComplement(m.P, m.ratings[a], m.ratings[b]);
  }

  ghost function TotalDelta(m: Match, rows: seq<PlayerId>, ids: seq<PlayerId>): real
    requires PowerLaw(m.P)
    requires (forall a <- rows :: a in m.ratings) && forall b <- ids :: b in m.ratings
  {
    if rows == [] then 0.0
    else TotalDelta(m, rows[..|rows| - 1], ids) + Delta(m, rows[|rows| - 1], ids)
  }

  /** Adding an opponent x to every row adds exactly what x loses to those rows. */
  lemma {:induction false} TotalDeltaNewColumn(m: Match, rows: seq<PlayerId>, ids: seq<PlayerId>, x: PlayerId)
    requires PowerLaw(m.P) && x in m.ratings
    requires (forall a <- rows :: a in m.ratings) && forall b <- ids :: b in m.ratings
    requires x !in rows
    ensures TotalDelta(m, rows, ids + [x]) == TotalDelta(m, rows, ids) - Delta(m, x, rows)
  {
    if rows != [] {
      var a := rows[|rows| - 1];
      TotalDeltaNewColumn(m, rows[..|rows| - 1], ids, x);
      assert (ids + [x])[..|ids|] == ids;
      GainAntisymmetric(m, a, x);
    }
  }

  /** The unrounded changes of a match sum to exactly zero. */
  lemma {:induction false} ZeroSum(m: Match, ids: seq<PlayerId>)
    requires Lineup(m, ids)
    ensures TotalDelta(m, ids, ids) == 0.0
  {
    if ids != [] {
      var rest, x := ids[..|ids| - 1], ids[|ids| - 1];
      assert rest + [x] == ids;
      ZeroSum(m, rest);
      TotalDeltaNewColumn(m, rest, rest, x);
    }
  }

  ghost function RatingTotal(ratings: map<PlayerId, real>, ids: seq<PlayerId>): real
    requires forall a <- ids :: a in ratings
  {
    if ids == [] then 0.0 else RatingTotal(ratings, ids[..|ids| - 1]) + ratings[ids[|ids| - 1]]
  }

  lemma {:induction false} TotalsDiffer(m: Match, ids: seq<PlayerId>, k: real, result: map<PlayerId, real>, n: nat)
    requires Lineup(m, ids) && |ids| >= 2 && n <= |ids|
    requires forall a <- ids :: a in result && result[a] == NewRating(m, ids, k, a)
    ensures var drift := RatingTotal(result, ids[..n]) - RatingTotal(m.ratings, ids[..n])
                         - Change(k, TotalDelta(m, ids[..n], ids), |ids|);
            -0.5 * n as real <= drift <= 0.5 * n as real
  {
    ChangeIsLinear(k, 0.0, 0.0, |ids|);
    if n > 0 {
      TotalsDiffer(m, ids, k, result, n - 1);
      var a := ids[n - 1];
      assert ids[..n][..n - 1] == ids[..n - 1];
      ChangeIsLinear(k, TotalDelta(m, ids[..n - 1], ids), Delta(m, a, ids), |ids|);
    }
  }

  /** A match of n >= 2 players moves the sum of all ratings by at most n/2, all of it rounding. */
  lemma RoundedTotalMovesAtMostHalfPerPlayer(m: Match, ids: seq<PlayerId>, k: real, result: map<PlayerId, real>)
    requires Lineup(m, ids) && |ids| >= 2
    requires forall a <- ids :: a in result && result[a] == NewRating(m, ids, k, a)
    ensures var drift := RatingTotal(result, ids) - RatingTotal(m.ratings, ids);
            -0.5 * |ids| as real <= drift <= 0.5 * |ids| as real
  {
    TotalsDiffer(m, ids, k, result, |ids|);
    assert ids[..|ids|] == ids;
    ZeroSum(m, ids);
    ChangeIsLinear(k, 0.0, 0.0, |ids|);
  }

  // -------------------------------------------------------- size of a change

  lemma {:induction false} DeltaBound(m: Match, a: PlayerId, ids: seq<PlayerId>)
    requires PowerLaw(m.P) && a in m.ratings && forall b <- ids :: b in m.ratings
    ensures var n := |ids| as real - if a in ids then 1.0 else 0.0;
            -n <= Delta(m, a, ids) <= n
  {
    if ids != [] {
      var rest, b := ids[..|ids| - 1], ids[|ids| - 1];
      assert rest + [b] == ids;
      DeltaBound(m, a, rest);
      GainAntisymmetric(m, a, b);
    }
  }

  /** No player's change exceeds K before rounding. */
  lemma ChangeIsAtMostK(m: Match, ids: seq<PlayerId>, k: real, a: PlayerId)
    requires Lineup(m, ids) && |ids| >= 2 && a in ids && k >= 0.0
    ensures -k <= Unrounded(m, ids, k, a) - m.ratings[a] <= k
  {
    DeltaBound(m, a, ids);
    var opponents := (|ids| - 1) as real;
    ChangeAtTheEnds(k, |ids|);
    ChangeIsMonotone(k, Delta(m, a, ids), opponents, |ids|);
    ChangeIsMonotone(k, -opponents, Delta(m, a, ids), |ids|);
  }

  /** Nor after it, for the whole-number ratings that the players table stores. */
  lemma StoredChangeIsAtMostK(m: Match, ids: seq<PlayerId>, k: nat, a: PlayerId, stored: int)
    requires Lineup(m, ids) && a in ids && m.ratings[a] == stored as real
    ensures -(k as real) <= NewRating(m, ids, k as real, a) - m.ratings[a] <= k as real
  {
    if |ids| >= 2 {
      ChangeIsAtMostK(m, ids, k as real, a);
      RoundOrder((stored - k) as real, Unrounded(m, ids, k as real, a));
      RoundOrder(Unrounded(m, ids, k as real, a), (stored + k) as real);
      RoundKeepsIntegers(stored - k);
      RoundKeepsIntegers(stored + k);
    }
  }

  // -------------------------------------------------------- order of players

  /** Whoever scored more and was rated no higher gains at least as much from every
      opponent, and one full point more when both met. */
  lemma {:induction false} DeltaOrder(m: Match, a: PlayerId, b: PlayerId, ids: seq<PlayerId>)
    requires Lineup(m, ids) && a in m.ratings && b in m.ratings && a != b
    requires m.ratings[a] <= m.ratings[b] && ScoreOf(m.scores, a) >= ScoreOf(m.scores, b)
    ensures Delta(m, a, ids) - Delta(m, b, ids)
            >= (if a in ids then Gain(m, a, b) else 0.0) + (if b in ids then Gain(m, a, b) else 0.0)
    ensures Gain(m, a, b) >= 0.0
    ensures ScoreOf(m.scores, a) > ScoreOf(m.scores, b) ==> Gain(m, a, b) >= 0.5
  {
    ExpectedMonotone(m.P, m.ratings[a], m.ratings[b], m.ratings[b]);
    ExpectedComplement(m.P, m.ratings[b], m.ratings[b]);
    GainAntisymmetric(m, a, b);
    if ids != [] {
      var rest, c := ids[..|ids| - 1], ids[|ids| - 1];
      assert rest + [c] == ids;
      DeltaOrder(m, a, b, rest);
      ExpectedMonotone(m.P, m.ratings[a], m.ratings[b], m.ratings[c]);
    }
  }

  /** Among equals in a match of n players: more score never ends lower, and ends
      strictly higher whenever K > n - 1 (at most 32 players with K = 32). */
  lemma HigherScoreNeverEndsLower(m: Match, ids: seq<PlayerId>, k: real, a: PlayerId, b: PlayerId)
    requires Lineup(m, ids) && a in ids && b in ids && k >= 0.0
    requires m.ratings[a] == m.ratings[b] && ScoreOf(m.scores, a) > ScoreOf(m.scores, b)
    ensures NewRating(m, ids, k, a) >= NewRating(m, ids, k, b)
    ensures k > (|ids| - 1) as real ==> NewRating(m, ids, k, a) > NewRating(m, ids, k, b)
    ensures k == K_FACTOR && |ids| <= 32 ==> NewRating(m, ids, k, a) > NewRating(m, ids, k, b)
  {
    assert |ids| >= 2;
    DeltaOrder(m, a, b, ids);
    var da, db := Delta(m, a, ids), Delta(m, b, ids);
    ChangeOfOne(k, |ids|);
    ChangeIsLinear(k, db, da - db, |ids|);
    ChangeIsMonotone(k, 0.0, 1.0, |ids|);
    ChangeIsMonotone(k, 1.0, da - db, |ids|);
    ChangeIsLinear(k, 0.0, 0.0, |ids|);
    RoundOrder(Unrounded(m, ids, k, b), Unrounded(m, ids, k, a));
  }

  /** A player alone in a match keeps the rating. */
  lemma LonePlayerKeepsRating(m: Match, ids: seq<PlayerId>, k: real)
    requires Lineup(m, ids) && |ids| == 1
    ensures NewRating(m, ids, k, ids[0]) == m.ratings[ids[0]]
  {
  }

  lemma DuelDeltas(m: Match, ids: seq<PlayerId>)
    requires Lineup(m, ids) && |ids| == 2
    ensures Delta(m, ids[0], ids) == Gain(m, ids[0], ids[1]) && Delta(m, ids[1], ids) == Gain(m, ids[1], ids[0])
  {
    assert ids[..1] == [ids[0]] && ids[..1][..0] == [];
    assert Delta(m, ids[0], ids[..1]) == 0.0;
    assert Delta(m, ids[1], ids[..1]) == Gain(m, ids[1], ids[0]);
  }

  /** Between two equals the winner takes half of K from the loser: 16 points; a draw changes
      nothing. */
  lemma DuelOfEquals(m: Match, ids: seq<PlayerId>, stored: int)
    requires Lineup(m, ids) && |ids| == 2
    requires m.ratings[ids[0]] == stored as real && m.ratings[ids[1]] == stored as real
    ensures var sa, sb := ScoreOf(m.scores, ids[0]), ScoreOf(m.scores, ids[1]);
      var won := if sa > sb then 16 else if sa < sb then -16 else 0;
      NewRating(m, ids, K_FACTOR, ids[0]) == (stored + won) as real
      && NewRating(m, ids, K_FACTOR, ids[1]) == (stored - won) as real
  {
    DuelDeltas(m, ids);
    ExpectedComplement(m.P, stored as real, stored as real);
    RoundKeepsIntegers(stored);
    RoundKeepsIntegers(stored + 16);
    RoundKeepsIntegers(stored - 16);
    assert Change(K_FACTOR, 0.5, 2) == 16.0 && Change(K_FACTOR, -0.5, 2) == -16.0 && Change(K_FACTOR, 0.0, 2) == 0.0;
  }

  /** Among equal scores the lower rated player gains no less, so ratings close up. */
  lemma UnderdogGainsNoLess(m: Match, ids: seq<PlayerId>, k: real, a: PlayerId, b: PlayerId)
    requires Lineup(m, ids) && a in ids && b in ids && |ids| >= 2 && k >= 0.0
    requires m.ratings[a] <= m.ratings[b] && ScoreOf(m.scores, a) >= ScoreOf(m.scores, b)
    ensures Unrounded(m, ids, k, a) - m.ratings[a] >= Unrounded(m, ids, k, b) - m.ratings[b]
  {
    if a != b {
      DeltaOrder(m, a, b, ids);
      ChangeIsMonotone(k, Delta(m, b, ids), Delta(m, a, ids), |ids|);
    }
  }

  // ------------------------------------------------- independence of the order

  lemma {:induction false} DeltaRemove(m: Match, a: PlayerId, ids: seq<PlayerId>, i: nat)
    requires PowerLaw(m.P) && a in m.ratings && (forall b <- ids :: b in m.ratings) && i < |ids|
    ensures Delta(m, a, ids)
            == Delta(m, a, ids[..i] + ids[i + 1..]) + if a == ids[i] then 0.0 else Gain(m, a, ids[i])
  {
    var n := |ids| - 1;
    if i == n {
      assert ids[..i] + ids[i + 1..] == ids[..n];
    } else {
      DeltaRemove(m, a, ids[..n], i);
      assert ids[..n][..i] + ids[..n][i + 1..] == (ids[..i] + ids[i + 1..])[..n - 1];
    }
  }

  lemma DropOne(ids: seq<PlayerId>, i: nat)
    requires i < |ids|
    ensures multiset(ids[..i] + ids[i + 1..]) == multiset(ids) - multiset{ids[i]}
  {
    assert ids == ids[..i] + [ids[i]] + ids[i + 1..];
  }

  lemma SamePlayers(ids: seq<PlayerId>, ids': seq<PlayerId>)
    requires multiset(ids) == multiset(ids')
    ensures |ids| == |ids'|
    ensures forall p :: p in ids <==> p in ids'
  {
    assert |ids| == |multiset(ids)| == |multiset(ids')| == |ids'|;
    forall p ensures p in ids <==> p in ids' {
      assert p in ids <==> p in multiset(ids);
      assert p in ids' <==> p in multiset(ids');
    }
  }

  lemma IndexOf(ids: seq<PlayerId>, p: PlayerId) returns (i: nat)
    requires p in ids
    ensures i < |ids| && ids[i] == p
  {
    i :| i < |ids| && ids[i] == p;
  }

  lemma DropSame(ids: seq<PlayerId>, ids': seq<PlayerId>, i: nat)
    requires multiset(ids) == multiset(ids') && ids != [] && i < |ids'| && ids'[i] == ids[|ids| - 1]
    ensures multiset(ids[..|ids| - 1]) == multiset(ids'[..i] + ids'[i + 1..])
    ensures forall b <- ids'[..i] + ids'[i + 1..] :: b in ids'
  {
    var n := |ids| - 1;
    DropOne(ids, n);
    DropOne(ids', i);
    assert ids[..n] + ids[n + 1..] == ids[..n];
  }

  lemma {:induction false} DeltaPermuted(m: Match, a: PlayerId, ids: seq<PlayerId>, ids': seq<PlayerId>)
    requires PowerLaw(m.P) && a in m.ratings
    requires (forall b <- ids :: b in m.ratings) && forall b <- ids' :: b in m.ratings
    requires multiset(ids) == multiset(ids')
    ensures Delta(m, a, ids) == Delta(m, a, ids')
    decreases |ids|
  {
    SamePlayers(ids, ids');
    if ids != [] {
      var n := |ids| - 1;
      var i := IndexOf(ids', ids[n]);
      var rest, rest' := ids[..n], ids'[..i] + ids'[i + 1..];
      DropSame(ids, ids', i);
      DeltaRemove(m, a, ids', i);
      DeltaPermuted(m, a, rest, rest');
    }
  }

  /** The order in which the ratings dictionary lists the players does not matter. */
  lemma OrderOfPlayersIsIrrelevant(m: Match, ids: seq<PlayerId>, ids': seq<PlayerId>, k: real, a: PlayerId)
    requires Lineup(m, ids) && Lineup(m, ids') && multiset(ids) == multiset(ids') && a in m.ratings
    ensures NewRating(m, ids, k, a) == NewRating(m, ids', k, a)
  {
    DeltaPermuted(m, a, ids, ids');
    SamePlayers(ids, ids');
  }
}
