/** Option and Result types shared by every module; `Error` names the
    reasons the engine's operations throw. */
module Outcomes {

  datatype Option<+T> = None | Some(value: T) {
    function GetOr(default: T): T {
      match this
      case Some(v) => v
      case None => default
    }
  }

  /** The reasons for which an operation of the engine throws. */
  datatype Error =
    | NoTargetBoard                  // Player.makeShot / calculateBestShot without a target board
    | AlreadyShotHere                // the shooter already fired at the cell
    | NotAI                          // Player.makeAIShot on a human player
    | NoAvailablePositions           // every cell of the target board was already fired at
    | NotPlaying                     // Game.makeShot outside the playing state
    | NotYourTurn                    // Game.makeShot by the seat that is not on turn
    | InvalidAIShot                  // Game.makeAIShot outside AI mode or on player 1's turn
    | CannotPlaceShip(shipId: int, row: int, col: int)

  datatype Result<+T> = Ok(value: T) | Err(error: Error)
}
