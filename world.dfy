/** The per-turn game snapshot the bot reads: constants, ships, cells,
    players and the two safety predicates the core consults (hlt/Game.java,
    hlt/Ship.java, hlt/Constants and MapStatsKeeper's risk test). */
module World {
  import opened Wrappers
  import opened Geometry

  /** The host's game constants, read once at start-up. */
  datatype Constants = Constants(
    maxHalite: int,
    extractRatio: int,
    moveCostRatio: int,
    inspirationRadius: int,
    inspirationShipCount: int,
    inspiredBonusMultiplier: real,
    maxTurns: int,
    dropoffCost: int)

  predicate ValidConstants(c: Constants)
  {
    && c.maxHalite > 0 && c.extractRatio > 0 && c.moveCostRatio > 0
    && c.inspirationRadius > 0 && c.inspirationShipCount > 0
    && c.inspiredBonusMultiplier >= 0.0 && c.maxTurns > 0 && c.dropoffCost > 0
  }

  /** A ship; Ship.equals compares owner, id, position and cargo, which is
      datatype equality here. */
  datatype Ship = Ship(owner: nat, id: nat, position: Position, halite: int)

  /** A map cell: its halite, the ship on it, and the owner of the
      structure (shipyard or dropoff) on it. */
  datatype Cell = Cell(halite: nat, ship: Option<Ship>, structureOwner: Option<nat>)

  /** A player: its id, structures, ships and banked halite. */
  datatype Player = Player(id: nat, shipyard: Position, dropoffs: seq<Position>, ships: seq<Ship>, halite: int)

  /** DropoffPlan: where a new dropoff is planned and whether a ship is on
      its way there. */
  datatype DropoffPlan = DropoffPlan(destination: Position, underway: bool, complete: bool, haliteNeeded: int)

  /** The snapshot of one turn. `canVisitAt(p, cargo, stationary)` and
      `canVisitFutureAt(p, cargo, turns)` are MapStatsKeeper.canVisit and
      canVisitFuture, whose risk tests are real-valued and are given as inputs. */
  datatype Game = Game(
    board: GameMap,
    cells: Position -> Cell,
    players: seq<Player>,
    me: Player,
    turnNumber: int,
    consts: Constants,
    canVisitAt: (Position, int, bool) -> bool,
    canVisitFutureAt: (Position, int, int) -> bool)

  predicate ValidGame(g: Game)
  {
    ValidMap(g.board) && ValidConstants(g.consts)
  }

  /** MapStatsKeeper.canVisit(game, position, ship). */
  predicate CanVisit(g: Game, p: Position, ship: Ship)
  {
    g.canVisitAt(p, ship.halite, ship.position == p)
  }

  /** Game.turnsRemaining(). */
  function TurnsRemaining(g: Game): int
  {
    g.consts.maxTurns - g.turnNumber
  }

  predicate HasShip(g: Game, p: Position)
  {
    g.cells(p).ship.Some?
  }
}
