/** AnyMoves.getMoveCommands (bots/current_bot/navigation/AnyMoves.java):
    the last step of a turn, which gives every ship still without a command
    a move from moveAnywhere with the random tiebreaker. */
module AnyMoves {
  import opened Wrappers
  import opened Geometry
  import opened World
  import opened Tiebreakers
  import opened Navigation
  import opened MoveRegistry

  /** One ship of the snapshot: moveAnywhere with mustMove taken from the
      register, then registerMove with whatever came back. A failed
      moveAnywhere (a ship that must move and cannot) is the exception the
      source lets escape. */
  method MoveOne(mr: MoveRegister, ship: Ship) returns (r: Result<Direction>)
    requires mr.Valid() && (ship in mr.remainingShips || ship in mr.forcedMoves)
    modifies mr
    ensures mr.Valid()
    ensures mr.remainingShips <= old(mr.remainingShips) && old(mr.forcedMoves) <= mr.forcedMoves
    ensures forall t :: t in old(mr.remainingShips) && t !in mr.remainingShips && t != ship ==> t in mr.forcedMoves
    ensures r.Ok? ==> ship !in mr.remainingShips
    ensures r.Err? ==> r.failure == NoMoveAvailable && old(mr.MustMove(ship)) && mr.State() == old(mr.State())
  {
    r := MoveAnywhere(mr.game, ship, mr.occupiedPositions, mr.MustMove(ship), RandomChoice);
    if r.Err? {
      return;
    }
    var ok := mr.RegisterMove(ship, r.value);
    assert ok;
  }

  /** getMoveCommands(game, moveRegister): over a snapshot of the remaining
      ships, each gets its moveAnywhere direction registered. Ships
      committed by a cascade before their turn were forced, so their
      registration is ignored. Unless some ship cannot move, no ship is left
      without a command. */
  method GetMoveCommands(mr: MoveRegister) returns (r: Result<()>)
    requires mr.Valid()
    modifies mr
    ensures mr.Valid()
    ensures mr.remainingShips <= old(mr.remainingShips)
    ensures r.Ok? ==> mr.remainingShips == {}
    ensures r.Err? ==> r.failure == NoMoveAvailable
  {
    var ships := mr.remainingShips;
    ghost var start := mr.remainingShips;
    while ships != {}
      invariant mr.Valid()
      invariant ships <= start && mr.remainingShips <= start
      invariant forall s :: s in mr.remainingShips ==> s in ships
      invariant forall s :: s in ships && s !in mr.remainingShips ==> s in mr.forcedMoves
      decreases |ships|
    {
      var ship :| ship in ships;
      ships := ships - {ship};
      var step := MoveOne(mr, ship);
      if step.Err? {
        return Err(step.failure);
      }
    }
    return Ok(());
  }
}
