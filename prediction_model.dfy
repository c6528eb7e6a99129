/** The Prediction collection (models/prediction.module.js): at most one
    prediction per (player, game), a score that defaults to 0, and a
    pre-validate hook that refuses a prediction whose player or game does not
    exist. */
module PredictionModel {
  import opened Ids
  import opened Wrappers

  datatype Status = Pending | Submitted | Complete

  /** The predicted away and home scores. */
  datatype Guess = Guess(away: int, home: int)

  /** `guess` is None until the player submits. */
  datatype Prediction = Prediction(
    id: PredictionId,
    player: PlayerId,
    game: GameId,
    guess: Option<Guess>,
    status: Status,
    score: int)

  /** The unique index on (player, game). */
  predicate UniquePlayerGame(rows: seq<Prediction>) {
    forall i, j :: 0 <= i < j < |rows| ==> rows[i].player != rows[j].player || rows[i].game != rows[j].game
  }

  predicate UniquePredictionIds(rows: seq<Prediction>) {
    forall i, j :: 0 <= i < j < |rows| ==> rows[i].id != rows[j].id
  }

  /** A prediction carries a guess exactly when it has left Pending. */
  predicate GuessMatchesStatus(p: Prediction) {
    p.guess.None? <==> p.status == Pending
  }

  /** Some stored prediction is for this player and game. */
  predicate HasPrediction(rows: seq<Prediction>, player: PlayerId, game: GameId) {
    exists i :: 0 <= i < |rows| && rows[i].player == player && rows[i].game == game
  }

  datatype SaveError = PlayerDoesNotExist | GameDoesNotExist | DuplicateKey | ScoresRequired

  /** Saving a new prediction: the pre-validate hook checks the player, then
      the game; the unique index then refuses a second prediction for the same
      pair. */
  function CheckNew(rows: seq<Prediction>, player: PlayerId, game: GameId,
                    players: set<PlayerId>, games: set<GameId>): (r: Option<SaveError>)
    ensures r == Some(PlayerDoesNotExist) <==> player !in players
    ensures r == Some(GameDoesNotExist) <==> player in players && game !in games
    ensures r == Some(DuplicateKey) <==> player in players && game in games && HasPrediction(rows, player, game)
    ensures r.None? <==> player in players && game in games && !HasPrediction(rows, player, game)
  {
    if player !in players then Some(PlayerDoesNotExist)
    else if game !in games then Some(GameDoesNotExist)
    else if exists i :: 0 <= i < |rows| && rows[i].player == player && rows[i].game == game then Some(DuplicateKey)
    else None
  }

  /** Saving a prediction without scores as the schema is written: after the
      pre-validate hook, validation finds the two `required` score paths
      missing, so no such save ever succeeds.  `CheckNew` is the intended
      check, which lets a Pending prediction without scores through. */
  function CheckScorelessAsWritten(player: PlayerId, game: GameId,
                                   players: set<PlayerId>, games: set<GameId>): (r: Option<SaveError>)
    ensures r.Some?
    ensures r == Some(PlayerDoesNotExist) <==> player !in players
    ensures r == Some(GameDoesNotExist) <==> player in players && game !in games
    ensures r == Some(ScoresRequired) <==> player in players && game in games
  {
    if player !in players then Some(PlayerDoesNotExist)
    else if game !in games then Some(GameDoesNotExist)
    else Some(ScoresRequired)
  }

  /** Every save the intended check accepts is refused as written. */
  lemma ScorelessSaveRefusedAsWritten(rows: seq<Prediction>, player: PlayerId, game: GameId,
                                      players: set<PlayerId>, games: set<GameId>)
    requires CheckNew(rows, player, game, players, games).None?
    ensures CheckScorelessAsWritten(player, game, players, games) == Some(ScoresRequired)
  {
  }

  /** A prediction accepted by `CheckNew` keeps the (player, game) index unique. */
  lemma AcceptedKeepsUnique(rows: seq<Prediction>, p: Prediction, players: set<PlayerId>, games: set<GameId>)
    requires UniquePlayerGame(rows)
    requires CheckNew(rows, p.player, p.game, players, games).None?
    ensures UniquePlayerGame(rows + [p])
  {
    var rows' := rows + [p];
    forall i, j | 0 <= i < j < |rows'| ensures rows'[i].player != rows'[j].player || rows'[i].game != rows'[j].game {
      if j == |rows| {
        assert rows'[i] == rows[i];
      } else {
        assert rows'[i] == rows[i] && rows'[j] == rows[j];
      }
    }
  }

  /** The position of the prediction with that id (`Prediction.findById`). */
  function IndexOfPrediction(rows: seq<Prediction>, id: PredictionId): (r: Option<nat>)
    ensures r.Some? ==> r.value < |rows| && rows[r.value].id == id
    ensures r.None? ==> forall i :: 0 <= i < |rows| ==> rows[i].id != id
  {
    if rows == [] then None
    else if rows[0].id == id then Some(0)
    else match IndexOfPrediction(rows[1..], id)
      case None => None
      case Some(k) => Some(k + 1)
  }

  /** The position of the prediction of `player` for `game`
      (`Prediction.findOne({ player, game })`). */
  function IndexOfPlayerGame(rows: seq<Prediction>, player: PlayerId, game: GameId): (r: Option<nat>)
    ensures r.Some? ==> r.value < |rows| && rows[r.value].player == player && rows[r.value].game == game
    ensures r.None? <==> !HasPrediction(rows, player, game)
  {
    if rows == [] then None
    else if rows[0].player == player && rows[0].game == game then Some(0)
    else match IndexOfPlayerGame(rows[1..], player, game)
      case None =>
        assert forall i :: 1 <= i < |rows| ==> rows[i] == rows[1..][i - 1];
        None
      case Some(k) => Some(k + 1)
  }

  /** The collection.  `nextId` stands for ObjectId generation: every stored id
      is below it. */
  class PredictionTable {
    var rows: seq<Prediction>
    var nextId: nat

    ghost predicate Valid()
      reads this
    {
      && UniquePredictionIds(rows)
      && UniquePlayerGame(rows)
      && (forall i :: 0 <= i < |rows| ==> rows[i].id.n < nextId)
      && (forall i :: 0 <= i < |rows| ==> GuessMatchesStatus(rows[i]))
    }

    constructor ()
      ensures Valid() && rows == []
    {
      rows := [];
      nextId := 0;
    }

    /** `new Prediction({ player, game }).save()`: a Pending prediction without
        a guess and with the default score 0, or the first error of `CheckNew`. */
    method Create(player: PlayerId, game: GameId, players: set<PlayerId>, games: set<GameId>)
      returns (r: Result<PredictionId, SaveError>)
      requires Valid()
      modifies this
      ensures Valid()
      ensures r.Err? ==> Some(r.error) == CheckNew(old(rows), player, game, players, games) && rows == old(rows)
      ensures r.Ok? ==> CheckNew(old(rows), player, game, players, games).None?
      ensures r.Ok? ==> rows == old(rows) + [Prediction(r.value, player, game, None, Pending, 0)]
      ensures CheckNew(old(rows), player, game, players, games).None? ==> r.Ok?
    {
      var check := CheckNew(rows, player, game, players, games);
      if check.Some? {
        return Err(check.value);
      }
      var p := Prediction(PredictionId(nextId), player, game, None, Pending, 0);
      AcceptedKeepsUnique(rows, p, players, games);
      rows := rows + [p];
      nextId := nextId + 1;
      r := Ok(p.id);
    }
  }
}
