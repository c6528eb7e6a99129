/** Option and Result values used in place of `null` lookups and of the
    error responses the controllers send. */
module Wrappers {

  datatype Option<+T> = None | Some(value: T) {
    function GetOr(default: T): T {
      match this
      case Some(v) => v
      case None => default
    }
  }

  datatype Result<+R, +E> = Ok(value: R) | Err(error: E)
}

/** Typed identifiers of the stored documents.  Player ids keep the string
    form of the ObjectId, because several controllers compare ids through
    `toString()`; the other kinds only need equality. */
module Ids {

  datatype PlayerId = PlayerId(hex: string)
  datatype UserId = UserId(n: nat)
  datatype GameId = GameId(n: nat)
  datatype PredictionId = PredictionId(n: nat)
  datatype LeagueId = LeagueId(n: nat)
  datatype TeamId = TeamId(n: nat)
}
