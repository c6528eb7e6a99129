/** The Game collection (models/game.module.js), in memory: a game document as
    a value and the collection as a table whose rows the reconciliation
    driver rewrites.  `date` is a timestamp in milliseconds. */
module GameModel {
  import opened Ids
  import opened Wrappers

  datatype GameStatus = Upcoming | Pending | Final

  datatype Game = Game(
    id: GameId,
    providerId: int,
    date: int,
    season: int,
    awayTeam: TeamId,
    homeTeam: TeamId,
    awayScore: int,
    homeScore: int,
    status: GameStatus)

  /** Each stored game has its own `_id`. */
  predicate UniqueGameIds(rows: seq<Game>) {
    forall i, j :: 0 <= i < j < |rows| ==> rows[i].id != rows[j].id
  }

  /** `Game.findById(id)`: the position of the game with that id. */
  function IndexOfGame(rows: seq<Game>, id: GameId): (r: Option<nat>)
    ensures r.Some? ==> r.value < |rows| && rows[r.value].id == id
    ensures r.None? ==> forall i :: 0 <= i < |rows| ==> rows[i].id != id
    ensures r.Some? ==> forall i :: 0 <= i < r.value ==> rows[i].id != id
  {
    if rows == [] then None
    else if rows[0].id == id then Some(0)
    else match IndexOfGame(rows[1..], id)
      case None => None
      case Some(k) => Some(k + 1)
  }

  /** `Game.findOne({ balldontlie_id })`: the first game with that provider id
      (the schema does not make provider ids unique). */
  function IndexOfProviderGame(rows: seq<Game>, providerId: int): (r: Option<nat>)
    ensures r.Some? ==> r.value < |rows| && rows[r.value].providerId == providerId
    ensures r.None? ==> forall i :: 0 <= i < |rows| ==> rows[i].providerId != providerId
    ensures r.Some? ==> forall i :: 0 <= i < r.value ==> rows[i].providerId != providerId
  {
    if rows == [] then None
    else if rows[0].providerId == providerId then Some(0)
    else match IndexOfProviderGame(rows[1..], providerId)
      case None => None
      case Some(k) => Some(k + 1)
  }

  function GameIds(rows: seq<Game>): set<GameId> {
    set i | 0 <= i < |rows| :: rows[i].id
  }

  class GameTable {
    var rows: seq<Game>

    ghost predicate Valid()
      reads this
    {
      UniqueGameIds(rows)
    }

    constructor (rows: seq<Game>)
      requires UniqueGameIds(rows)
      ensures Valid() && this.rows == rows
    {
      this.rows := rows;
    }
  }
}
