/** helpers/prediction.helpers.js: settling the predictions of a finished game
    (`updatePredictions`) and a player's place among the predictions for one
    game (`getRanking`).  `calculateScore` is in module Scoring. */
module PredictionHelpers {
  import opened Ids
  import opened Wrappers
  import opened Scoring
  import opened GameModel
  import opened PredictionModel
  import Lists
  import StableSort

  // ---------------------------------------------------------------------
  // updatePredictions

  /** What `updatePredictions` does to one stored prediction: a Submitted
      prediction of the game becomes Complete, scored against the given
      final scores; every other prediction is left as it is. */
  function Settle(p: Prediction, game: GameId, away: int, home: int): Prediction {
    if p.game == game && p.status == Submitted && p.guess.Some? then
      p.(status := Complete, score := CalculateScore(away, home, p.guess.value.away, p.guess.value.home))
    else p
  }

  function SettleAll(rows: seq<Prediction>, game: GameId, away: int, home: int): (r: seq<Prediction>)
    ensures |r| == |rows|
    ensures forall i :: 0 <= i < |rows| ==> r[i] == Settle(rows[i], game, away, home)
  {
    seq(|rows|, i requires 0 <= i < |rows| => Settle(rows[i], game, away, home))
  }

  /** Every Submitted prediction of the game ends Complete with the score of
      its guess against the final scores; no Submitted prediction of the game
      is left. */
  lemma SettleAllCompletes(rows: seq<Prediction>, game: GameId, away: int, home: int)
    requires forall i :: 0 <= i < |rows| ==> GuessMatchesStatus(rows[i])
    ensures forall i :: 0 <= i < |rows| && rows[i].game == game && rows[i].status == Submitted ==>
      var r := SettleAll(rows, game, away, home)[i];
      r.status == Complete && r.guess == rows[i].guess
      && r.score == CalculateScore(away, home, rows[i].guess.value.away, rows[i].guess.value.home)
    ensures forall i :: 0 <= i < |rows| ==> !(rows[i].game == game && SettleAll(rows, game, away, home)[i].status == Submitted)
  {
  }

  /** Predictions of other games, and Pending or Complete ones, are untouched;
      a status only ever moves from Submitted to Complete. */
  lemma SettleAllLeavesOthers(rows: seq<Prediction>, game: GameId, away: int, home: int)
    ensures forall i :: 0 <= i < |rows| && (rows[i].game != game || rows[i].status != Submitted) ==>
      SettleAll(rows, game, away, home)[i] == rows[i]
    ensures forall i :: 0 <= i < |rows| ==>
      var r := SettleAll(rows, game, away, home)[i];
      r.status == rows[i].status || (rows[i].status == Submitted && r.status == Complete)
  {
  }

  /** Settling a game twice is settling it once. */
  lemma SettleAllIdempotent(rows: seq<Prediction>, game: GameId, away: int, home: int)
    ensures SettleAll(SettleAll(rows, game, away, home), game, away, home) == SettleAll(rows, game, away, home)
  {
  }

  /** Settling keeps ids, players and games, so the table stays valid. */
  lemma SettleAllKeepsTableInvariant(rows: seq<Prediction>, game: GameId, away: int, home: int)
    requires UniquePredictionIds(rows) && UniquePlayerGame(rows)
    requires forall i :: 0 <= i < |rows| ==> GuessMatchesStatus(rows[i])
    ensures var r := SettleAll(rows, game, away, home);
      && UniquePredictionIds(r) && UniquePlayerGame(r)
      && (forall i :: 0 <= i < |r| ==> GuessMatchesStatus(r[i]))
      && (forall i :: 0 <= i < |r| ==> r[i].id == rows[i].id)
  {
    var r := SettleAll(rows, game, away, home);
    assert forall i :: 0 <= i < |r| ==> r[i].id == rows[i].id && r[i].player == rows[i].player && r[i].game == rows[i].game;
  }

  datatype UpdateError = GameNotFound | GameNotComplete

  /** `updatePredictions(gameId, away_score, home_score)`: refuses a missing
      game and a game that is not Final, changing nothing; otherwise sets
      score and status of every Submitted prediction of the game, record by
      record.  The scores used are the arguments, not the game's own. */
  method UpdatePredictions(preds: PredictionTable, games: GameTable, gameId: GameId, away: int, home: int)
    returns (r: Option<UpdateError>)
    requires preds.Valid()
    modifies preds
    ensures preds.Valid() && preds.nextId == old(preds.nextId)
    ensures r == Some(GameNotFound) <==> IndexOfGame(games.rows, gameId).None?
    ensures r == Some(GameNotComplete) <==>
      IndexOfGame(games.rows, gameId).Some? && games.rows[IndexOfGame(games.rows, gameId).value].status != Final
    ensures r.None? <==>
      IndexOfGame(games.rows, gameId).Some? && games.rows[IndexOfGame(games.rows, gameId).value].status == Final
    ensures r.Some? ==> preds.rows == old(preds.rows)
    ensures r.None? ==> preds.rows == SettleAll(old(preds.rows), gameId, away, home)
  {
    var found := IndexOfGame(games.rows, gameId);
    if found.None? {
      return Some(GameNotFound);
    }
    if games.rows[found.value].status != Final {
      return Some(GameNotComplete);
    }
    ghost var original := preds.rows;
    SettleAllKeepsTableInvariant(original, gameId, away, home);
    var i := 0;
    while i < |preds.rows|
      invariant 0 <= i <= |preds.rows| == |original|
      invariant preds.nextId == old(preds.nextId)
      invariant forall k :: 0 <= k < i ==> preds.rows[k] == Settle(original[k], gameId, away, home)
      invariant forall k :: i <= k < |original| ==> preds.rows[k] == original[k]
    {
      var p := preds.rows[i];
      if p.game == gameId && p.status == Submitted && p.guess.Some? {
        var score := CalculateScore(away, home, p.guess.value.away, p.guess.value.home);
        preds.rows := preds.rows[i := p.(score := score, status := Complete)];
      }
      i := i + 1;
    }
    assert preds.rows == SettleAll(original, gameId, away, home);
    r := None;
  }

  // ---------------------------------------------------------------------
  // getRanking

  datatype RankResult = RankResult(rank: nat, score: int)

  function Max(a: int, b: int): int {
    if a < b then b else a
  }

  /** All predictions for the game, highest score first, ties in stored order
      (`Prediction.find({ game })` followed by the stable descending sort). */
  function RankingOrder(rows: seq<Prediction>, game: GameId): seq<Prediction> {
    StableSort.SortBy(Lists.Filter(rows, ForGame(game)), ScoreDescending)
  }

  function ForGame(game: GameId): Prediction -> bool {
    (p: Prediction) => p.game == game
  }

  /** Sorting ascending by this key puts the highest score first. */
  function ScoreDescending(p: Prediction): int {
    -p.score
  }

  /** The scan stops at the player's own prediction or at the first score of 0. */
  predicate IsStop(p: Prediction, player: PlayerId) {
    p.player == player || p.score == 0
  }

  /** The first position at which the scan stops, if any. */
  function FirstStop(s: seq<Prediction>, player: PlayerId): (r: Option<nat>)
    ensures r.Some? ==> r.value < |s| && IsStop(s[r.value], player)
    ensures r.Some? ==> forall j :: 0 <= j < r.value ==> !IsStop(s[j], player)
    ensures r.None? ==> forall j :: 0 <= j < |s| ==> !IsStop(s[j], player)
  {
    if s == [] then None
    else if IsStop(s[0], player) then Some(0)
    else match FirstStop(s[1..], player)
      case None =>
        assert forall j :: 1 <= j < |s| ==> s[j] == s[1..][j - 1];
        None
      case Some(k) =>
        assert forall j :: 1 <= j <= k ==> s[j] == s[1..][j - 1];
        Some(k + 1)
  }

  /** The rank the scan reports over an ordered list: the stopping position
      (1-based) and its score, or `max(1, n)` with score 0 when it never stops. */
  function Ranking(s: seq<Prediction>, player: PlayerId): (r: RankResult)
    ensures 1 <= r.rank <= Max(1, |s|)
  {
    match FirstStop(s, player)
    case Some(i) => RankResult(i + 1, s[i].score)
    case None => RankResult(Max(1, |s|), 0)
  }

  /** `getRanking(gameId, playerId)`: sorts, then scans with early returns. */
  method GetRanking(rows: seq<Prediction>, gameId: GameId, playerId: PlayerId) returns (r: RankResult)
    ensures r == Ranking(RankingOrder(rows, gameId), playerId)
    ensures 1 <= r.rank <= Max(1, |RankingOrder(rows, gameId)|)
  {
    var predictions := RankingOrder(rows, gameId);
    var i := 0;
    while i < |predictions|
      invariant 0 <= i <= |predictions|
      invariant forall j :: 0 <= j < i ==> !IsStop(predictions[j], playerId)
    {
      var prediction := predictions[i];
      if prediction.player == playerId {
        return RankResult(i + 1, prediction.score);
      }
      // lowest possible score: the player is tied with this position
      if prediction.score == 0 {
        return RankResult(i + 1, prediction.score);
      }
      i := i + 1;
    }
    // nobody predicted: everyone is tied for first
    return RankResult(Max(1, |predictions|), 0);
  }

  /** The scan stops at the first stopping position. */
  lemma {:induction false} FirstStopAt(s: seq<Prediction>, player: PlayerId, i: nat)
    requires i < |s| && IsStop(s[i], player)
    requires forall j :: 0 <= j < i ==> !IsStop(s[j], player)
    ensures FirstStop(s, player) == Some(i)
  {
    if i > 0 {
      assert !IsStop(s[0], player);
      assert forall j :: 0 <= j < i - 1 ==> s[1..][j] == s[j + 1];
      FirstStopAt(s[1..], player, i - 1);
    }
  }

  /** A player reached before any zero score is ranked by position, with their
      own score. */
  lemma RankingOfReachedPlayer(s: seq<Prediction>, player: PlayerId, i: nat)
    requires i < |s| && s[i].player == player
    requires forall j :: 0 <= j < i ==> s[j].player != player && s[j].score != 0
    ensures Ranking(s, player) == RankResult(i + 1, s[i].score)
  {
    FirstStopAt(s, player, i);
  }

  /** The zero floor: a player not reached before the first score of 0 gets
      that position, with score 0 -- whatever their own score and even with
      no prediction at all. */
  lemma RankingZeroFloor(s: seq<Prediction>, player: PlayerId, z: nat)
    requires z < |s| && s[z].score == 0
    requires forall j :: 0 <= j <= z ==> s[j].player != player
    requires forall j :: 0 <= j < z ==> s[j].score != 0
    ensures Ranking(s, player) == RankResult(z + 1, 0)
  {
    FirstStopAt(s, player, z);
  }

  /** No prediction, no zero score: the tie for `max(1, n)` with score 0. */
  lemma RankingWithoutStop(s: seq<Prediction>, player: PlayerId)
    requires forall j :: 0 <= j < |s| ==> s[j].player != player && s[j].score != 0
    ensures Ranking(s, player) == RankResult(Max(1, |s|), 0)
  {
  }

  function Sample(player: string, g: GameId, score: int): Prediction {
    Prediction(PredictionId(|player|), PlayerId(player), g, Some(Guess(0, 0)), Complete, score)
  }

  /** Scores 90, 80, 80, 0, 0 for players A..E of one game. */
  function ExampleRows(g: GameId): seq<Prediction> {
    [Sample("A", g, 90), Sample("B", g, 80), Sample("C", g, 80), Sample("D", g, 0), Sample("E", g, 0)]
  }

  lemma ExampleSorted(g: GameId)
    ensures StableSort.SortedBy(ExampleRows(g), ScoreDescending)
  {
    var s := ExampleRows(g);
    assert forall i :: 0 <= i < |s| - 1 ==> ScoreDescending(s[i]) <= ScoreDescending(s[i + 1]);
  }

  lemma ExampleAlreadyRanked(g: GameId)
    ensures RankingOrder(ExampleRows(g), g) == ExampleRows(g)
  {
    FilterAllOfGame(ExampleRows(g), g);
    ExampleSorted(g);
    StableSort.SortBySorted(ExampleRows(g), ScoreDescending);
  }

  /** B is second with 80; D, E and a player without a prediction all share
      the first zero's position 4. */
  lemma RankingExample(g: GameId)
    ensures Ranking(RankingOrder(ExampleRows(g), g), PlayerId("B")) == RankResult(2, 80)
    ensures Ranking(RankingOrder(ExampleRows(g), g), PlayerId("D")) == RankResult(4, 0)
    ensures Ranking(RankingOrder(ExampleRows(g), g), PlayerId("E")) == RankResult(4, 0)
    ensures Ranking(RankingOrder(ExampleRows(g), g), PlayerId("F")) == RankResult(4, 0)
  {
    ExampleAlreadyRanked(g);
    ExampleSecond(g);
    ExampleFirstZero(g);
    ExampleBelowZero(g);
    ExampleAbsent(g);
  }

  lemma ExampleSecond(g: GameId)
    ensures Ranking(ExampleRows(g), PlayerId("B")) == RankResult(2, 80)
  {
    RankingOfReachedPlayer(ExampleRows(g), PlayerId("B"), 1);
  }

  lemma ExampleFirstZero(g: GameId)
    ensures Ranking(ExampleRows(g), PlayerId("D")) == RankResult(4, 0)
  {
    RankingOfReachedPlayer(ExampleRows(g), PlayerId("D"), 3);
  }

  lemma ExampleBelowZero(g: GameId)
    ensures Ranking(ExampleRows(g), PlayerId("E")) == RankResult(4, 0)
  {
    RankingZeroFloor(ExampleRows(g), PlayerId("E"), 3);
  }

  lemma ExampleAbsent(g: GameId)
    ensures Ranking(ExampleRows(g), PlayerId("F")) == RankResult(4, 0)
  {
    RankingZeroFloor(ExampleRows(g), PlayerId("F"), 3);
  }

  lemma {:induction false} FilterAllOfGame(s: seq<Prediction>, g: GameId)
    requires forall i :: 0 <= i < |s| ==> s[i].game == g
    ensures Lists.Filter(s, ForGame(g)) == s
  {
    if s != [] {
      FilterAllOfGame(s[1..], g);
      assert s == [s[0]] + s[1..];
    }
  }
}
