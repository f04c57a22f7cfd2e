/** Option and Result wrappers: the model's stand-ins for Java's `null`,
    `Optional` and thrown exceptions. */
module Wrappers {
  datatype Option<T> = None | Some(value: T)
  {
    function GetOr(default: T): T
    {
      if Some? then value else default
    }
  }

  /** The exceptions the source throws, one constructor per distinct cause. */
  datatype Failure =
    | IllegalMove        // registerMove on a ship that is neither remaining nor forced
    | DoubleSpawn        // registerSpawn called twice
    | NoMoveAvailable    // moveAnywhere with mustMove and every neighbour occupied
    | LayerInconsistency // the mining search found a turn count outside the next two layers
    | MissingOptions     // firstMove on a plan without a second step
    | UnknownKey         // BotConstantsArgs: an override key it does not know
    | BadNumber          // BotConstantsArgs: a value that does not parse as a number
    | NotOnPlannedSite   // getReturningMove: converting where no dropoff is planned
    | ReturnerOnDropoff  // getReturningMove: a returning ship already standing on a structure
    | NotRemaining       // registerDropoff's assertion: the ship already has a command
    | NoScores           // fixReturningShips: arrayMin on a missing (null) or empty mining-score table

  datatype Result<T> = Ok(value: T) | Err(failure: Failure)
}
