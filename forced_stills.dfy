/** CommonFunctions.getForcedStills (bots/current_bot/utils/CommonFunctions.java):
    at the start of a turn, every ship that cannot pay to leave its cell is
    registered as staying still. It lives apart from the pure helpers
    because it writes to the move register. */
module ForcedStills {
  import opened Geometry
  import opened World
  import opened ShipCommands
  import opened CommonFunctions
  import opened MoveRegistry

  /** A ship carrying less than the cost of leaving its cell. */
  predicate MustStay(g: Game, ship: Ship)
    requires ValidConstants(g.consts)
  {
    ship.halite < MoveCost(g.consts, g.cells(ship.position).halite)
  }

  /** The ids of the ships in `ships` that must stay. */
  function StuckIds(g: Game, ships: set<Ship>): set<nat>
    requires ValidConstants(g.consts)
  {
    set s | s in ships && MustStay(g, s) :: s.id
  }

  lemma StuckIdsAdd(g: Game, ships: set<Ship>, s: Ship)
    requires ValidConstants(g.consts)
    ensures StuckIds(g, ships + {s}) == StuckIds(g, ships) + (if MustStay(g, s) then {s.id} else {})
  {
  }

  /** Moving one element from one of two disjoint sets to the other keeps
      them disjoint and keeps their union. */
  lemma MoveOne<T>(a: set<T>, b: set<T>, x: T)
    requires x in a && a !! b
    ensures (a - {x}) !! (b + {x}) && (a - {x}) + (b + {x}) == a + b
  {
  }

  /** The ship t is held on its own cell: it has left the remaining set,
      and either a cascade forced it before its turn came, or STILL was
      registered for it and its cell is claimed. A STILL command leaves the
      list only through the cascade's cancellation, whose cell is then a
      must-move destination. */
  ghost predicate HeldStill(m: GameMap, l: Ledger, t: Ship)
    requires ValidMap(m)
  {
    t !in l.remaining
    && (t in l.forced
        || (t.position in l.occupied && (Move(m, t, Still) in l.commands || t.position in l.mustMoveDests)))
  }

  /** Later registrations keep a ship held. */
  lemma HeldStillKept(m: GameMap, a: Ledger, b: Ledger, exempt: set<Ship>, t: Ship)
    requires ValidMap(m) && OnMap(m, t.position) && HeldStill(m, a, t)
    requires Evolved(a, b, exempt) && Kept(a, b)
    ensures HeldStill(m, b, t)
  {
    OffsetStill(m, t.position);
  }

  /** One step of getForcedStills: a ship that must stay is given STILL. */
  method StillIfStuck(mr: MoveRegister, s: Ship) returns (stuck: bool)
    requires mr.Valid() && (s in mr.remainingShips || s in mr.forcedMoves)
    modifies mr
    ensures mr.Valid() && Evolved(old(mr.State()), mr.State(), {s}) && Kept(old(mr.State()), mr.State())
    ensures stuck == MustStay(mr.game, s)
    ensures stuck ==> HeldStill(mr.game.board, mr.State(), s)
    ensures !stuck ==> mr.State() == old(mr.State())
  {
    stuck := s.halite < MoveCost(mr.game.consts, mr.game.cells(s.position).halite);
    if stuck {
      var ok := mr.RegisterMove(s, Still);
      assert ok;
      if s in old(mr.remainingShips) {
        OffsetStill(mr.game.board, s.position);
      }
    }
  }

  /** One turn of getForcedStills' loop: `s` moves from the ships still
      to visit to those visited, and the loop's bookkeeping carries over. */
  method ForceOne(mr: MoveRegister, ghost all: set<Ship>, ships: set<Ship>, ghost done: set<Ship>, ids: set<nat>, s: Ship)
    returns (ids': set<nat>)
    requires mr.Valid() && s in ships
    requires mr.remainingShips <= all && ships !! done && ships + done == all
    requires forall t :: t in all ==> t in mr.allShips
    requires ids == StuckIds(mr.game, done)
    requires forall t :: t in done && MustStay(mr.game, t) ==> HeldStill(mr.game.board, mr.State(), t)
    requires forall t :: t in ships && t !in mr.remainingShips ==> t in mr.forcedMoves
    modifies mr
    ensures mr.Valid() && Evolved(old(mr.State()), mr.State(), {s})
    ensures ids' == StuckIds(mr.game, done + {s})
    ensures forall t :: t in done + {s} && MustStay(mr.game, t) ==> HeldStill(mr.game.board, mr.State(), t)
    ensures forall t :: t in ships - {s} && t !in mr.remainingShips ==> t in mr.forcedMoves
  {
    var stuck := StillIfStuck(mr, s);
    ids' := if stuck then ids + {s.id} else ids;
    StuckIdsAdd(mr.game, done, s);
    forall t | t in done && MustStay(mr.game, t)
      ensures HeldStill(mr.game.board, mr.State(), t)
    {
      HeldStillKept(mr.game.board, old(mr.State()), mr.State(), {s}, t);
    }
  }

  /** getForcedStills(map, moveRegister): called before any move is
      registered; each remaining ship that must stay gets STILL on its own
      cell (or was already forced off it by a cascade), and the ids of
      exactly those ships are returned. A ship committed by a cascade
      before its turn came was forced, so no call is a duplicate command. */
  method GetForcedStills(mr: MoveRegister) returns (ids: set<nat>)
    requires mr.Valid() && mr.occupiedPositions == {}
    modifies mr
    ensures mr.Valid()
    ensures ids == StuckIds(mr.game, old(mr.remainingShips))
    ensures forall s :: s in old(mr.remainingShips) && MustStay(mr.game, s) ==> HeldStill(mr.game.board, mr.State(), s)
    ensures mr.remainingShips <= old(mr.remainingShips)
  {
    ghost var start := mr.State();
    var ships := mr.remainingShips;
    ghost var done: set<Ship> := {};
    ids := {};
    while ships != {}
      invariant mr.Valid()
      invariant mr.remainingShips <= start.remaining
      invariant ships !! done && ships + done == start.remaining
      invariant ids == StuckIds(mr.game, done)
      invariant forall s :: s in done && MustStay(mr.game, s) ==> HeldStill(mr.game.board, mr.State(), s)
      invariant forall s :: s in ships && s !in mr.remainingShips ==> s in mr.forcedMoves
      decreases |ships|
    {
      var s :| s in ships;
      MoveOne(ships, done, s);
      ids := ForceOne(mr, start.remaining, ships, done, ids, s);
      ships := ships - {s};
      done := done + {s};
    }
  }
}
