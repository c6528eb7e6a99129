/** The LeagueMembership collection (models/leagueMembership.module.js): at
    most one membership per (player, league), and `getTotalScore`, the sum of
    the scores of the predictions a membership lists. */
module LeagueMembership {
  import opened Ids
  import opened Wrappers
  import opened Lists
  import opened PredictionModel

  datatype Membership = Membership(
    player: PlayerId,
    league: LeagueId,
    games: seq<GameId>,
    predictions: seq<PredictionId>)

  /** The unique index on (player, league). */
  predicate UniquePlayerLeague(rows: seq<Membership>) {
    forall i, j :: 0 <= i < j < |rows| ==> rows[i].player != rows[j].player || rows[i].league != rows[j].league
  }

  predicate HasMembership(rows: seq<Membership>, player: PlayerId, league: LeagueId) {
    exists i :: 0 <= i < |rows| && rows[i].player == player && rows[i].league == league
  }

  /** Inserting a membership: the unique index refuses a second one for the
      same pair, and an accepted insert keeps the index unique. */
  function Insert(rows: seq<Membership>, m: Membership): (r: Option<seq<Membership>>)
    ensures r.None? <==> HasMembership(rows, m.player, m.league)
    ensures r.Some? ==> r.value == rows + [m]
    ensures r.Some? && UniquePlayerLeague(rows) ==> UniquePlayerLeague(r.value)
  {
    if HasMembership(rows, m.player, m.league) then None
    else
      var rows' := rows + [m];
      assert forall i :: 0 <= i < |rows| ==> rows'[i] == rows[i];
      Some(rows')
  }

  /** The `reduce` sum of scores. */
  function SumScores(s: seq<Prediction>): int {
    if s == [] then 0 else SumScores(s[..|s| - 1]) + s[|s| - 1].score
  }

  lemma SumScoresSnoc(s: seq<Prediction>, p: Prediction)
    ensures SumScores(s + [p]) == SumScores(s) + p.score
  {
    assert (s + [p])[..|s|] == s;
  }

  lemma {:induction false} SumScoresNonNegative(s: seq<Prediction>)
    requires forall i :: 0 <= i < |s| ==> s[i].score >= 0
    ensures SumScores(s) >= 0
  {
    if s != [] {
      SumScoresNonNegative(s[..|s| - 1]);
    }
  }

  function IdIn(ids: seq<PredictionId>): Prediction -> bool {
    (p: Prediction) => p.id in ids
  }

  /** `getTotalScore`: `Prediction.find({ _id: { $in: predictions } })` yields
      the stored predictions whose id is listed, in stored order, and their
      scores are summed. */
  function GetTotalScore(ids: seq<PredictionId>, rows: seq<Prediction>): int {
    SumScores(Filter(rows, IdIn(ids)))
  }

  /** With no listed predictions the total is 0. */
  lemma {:induction false} TotalOfNothing(rows: seq<Prediction>)
    ensures GetTotalScore([], rows) == 0
  {
    if rows != [] {
      TotalOfNothing(rows[1..]);
    }
  }

  /** The total depends only on which ids are listed, not on their order or
      repetition: listing an id twice counts its prediction once. */
  lemma TotalScoreBySet(ids: seq<PredictionId>, ids': seq<PredictionId>, rows: seq<Prediction>)
    requires Elements(ids) == Elements(ids')
    ensures GetTotalScore(ids, rows) == GetTotalScore(ids', rows)
  {
    assert forall p :: IdIn(ids)(p) == IdIn(ids')(p) by {
      forall p ensures IdIn(ids)(p) == IdIn(ids')(p) {
        assert p.id in ids <==> p.id in Elements(ids);
        assert p.id in ids' <==> p.id in Elements(ids');
      }
    }
    FilterSame(rows, IdIn(ids), IdIn(ids'));
  }

  lemma RepeatedIdCountedOnce(ids: seq<PredictionId>, id: PredictionId, rows: seq<Prediction>)
    requires id in ids
    ensures GetTotalScore(ids + [id], rows) == GetTotalScore(ids, rows)
  {
    assert Elements(ids + [id]) == Elements(ids);
    TotalScoreBySet(ids + [id], ids, rows);
  }

  /** With every stored score in 0..100, the total lies between 0 and 100
      times the number of predictions counted. */
  lemma TotalScoreBounds(ids: seq<PredictionId>, rows: seq<Prediction>)
    requires forall i :: 0 <= i < |rows| ==> 0 <= rows[i].score <= 100
    ensures 0 <= GetTotalScore(ids, rows) <= 100 * |Filter(rows, IdIn(ids))|
  {
    SumScoresBounds(Filter(rows, IdIn(ids)));
  }

  lemma {:induction false} SumScoresBounds(s: seq<Prediction>)
    requires forall i :: 0 <= i < |s| ==> 0 <= s[i].score <= 100
    ensures 0 <= SumScores(s) <= 100 * |s|
  {
    if s != [] {
      SumScoresBounds(s[..|s| - 1]);
    }
  }
}
