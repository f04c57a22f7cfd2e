/** Guarding (bots/current_bot/Guarding.java): in the endgame each guard
    ship keeps by its dropoff. It runs at an enemy that comes within two
    cells of the dropoff, otherwise waits on a cell next to it, and on the
    last turn, or when nothing else is possible, steps into the dropoff
    with a collision allowed there. */
module Guarding {
  import opened Wrappers
  import opened Geometry
  import opened World
  import opened ShipCommands
  import opened CommonFunctions
  import opened Tiebreakers
  import opened Navigation
  import opened MoveRegistry

  /** Where both scans start (lines 43 and 63): a cell at least this far
      from the guard is never chased, and one farther than this is never
      waited on. */
  const Horizon := 10

  /** The running best of a scan: its distance, and the chosen cell with
      the step toward it. The source keeps only the step; the cell is kept
      here so that the choice can be described. */
  datatype Scan = Scan(best: int, pick: Option<(Position, Direction)>)

  /** The distance the scans measure: from the cell to the guard. */
  function Gap(m: GameMap, p: Position, ship: Ship): int
  {
    CalculateDistance(m, p, ship.position)
  }

  // ---------------------------------------------------------------------
  // Chasing (lines 42-59)

  /** A cell holding an enemy ship that the guard has an unoccupied step
      toward. */
  predicate Chaseable(g: Game, ship: Ship, occupied: set<Position>, p: Position)
    requires ValidMap(g.board)
  {
    HasEnemyShip(g, p) && TowardUnsafe(g, ship, p, occupied).Some?
  }

  /** The loop of lines 45-53 over a list of cells, as a value: a
      chaseable cell strictly nearer the guard than the best so far becomes
      the choice. */
  function ChaseFold(g: Game, ship: Ship, occupied: set<Position>, cells: seq<Position>): Scan
    requires ValidMap(g.board)
  {
    if cells == [] then Scan(Horizon, None)
    else ChaseStep(g, ship, occupied, ChaseFold(g, ship, occupied, cells[..|cells| - 1]), cells[|cells| - 1])
  }

  /** One cell of the loop of lines 45-53. */
  function ChaseStep(g: Game, ship: Ship, occupied: set<Position>, prev: Scan, p: Position): Scan
    requires ValidMap(g.board)
  {
    if Chaseable(g, ship, occupied, p) && Gap(g.board, p, ship) < prev.best
    then Scan(Gap(g.board, p, ship), Some((p, TowardUnsafe(g, ship, p, occupied).value)))
    else prev
  }

  /** The chase picks a chaseable cell nearest the guard among those
      listed, and picks one exactly when some listed chaseable cell is
      nearer than the horizon. */
  lemma {:induction false} ChaseFoldMeaning(g: Game, ship: Ship, occupied: set<Position>, cells: seq<Position>)
    requires ValidMap(g.board)
    ensures var r := ChaseFold(g, ship, occupied, cells);
      && r.best <= Horizon
      && (r.pick.None? ==> r.best == Horizon)
      && (r.pick.None? <==> forall q :: q in cells && Chaseable(g, ship, occupied, q) ==> Gap(g.board, q, ship) >= Horizon)
      && (r.pick.Some? ==>
            && r.pick.value.0 in cells && HasEnemyShip(g, r.pick.value.0)
            && TowardUnsafe(g, ship, r.pick.value.0, occupied) == Some(r.pick.value.1)
            && r.best == Gap(g.board, r.pick.value.0, ship) < Horizon)
      && (forall q :: q in cells && Chaseable(g, ship, occupied, q) ==> r.best <= Gap(g.board, q, ship))
  {
    if cells != [] {
      var init := cells[..|cells| - 1];
      ChaseFoldMeaning(g, ship, occupied, init);
      assert forall q :: q in cells ==> q in init || q == cells[|cells| - 1];
    }
  }

  /** Ties go to the earlier cell: a later chaseable cell no nearer than
      the best so far leaves the choice as it was. */
  lemma ChaseKeepsEarlier(g: Game, ship: Ship, occupied: set<Position>, cells: seq<Position>, p: Position)
    requires ValidMap(g.board)
    requires Gap(g.board, p, ship) >= ChaseFold(g, ship, occupied, cells).best
    ensures ChaseFold(g, ship, occupied, cells + [p]) == ChaseFold(g, ship, occupied, cells)
  {
    assert (cells + [p])[..|cells|] == cells;
  }

  /** One more cell for the chase. */
  lemma ChaseFoldNext(g: Game, ship: Ship, occupied: set<Position>, cells: seq<Position>, i: int)
    requires ValidMap(g.board) && 0 <= i < |cells|
    ensures ChaseFold(g, ship, occupied, cells[..i + 1]) == ChaseStep(g, ship, occupied, ChaseFold(g, ship, occupied, cells[..i]), cells[i])
  {
    assert cells[..i + 1][..i] == cells[..i];
  }

  /** Lines 46-52 for one cell: an enemy cell that navigateUnsafe can step
      toward replaces the choice when it is strictly nearer the guard. */
  method ChaseVisit(g: Game, ship: Ship, occupied: set<Position>, prev: Scan, p: Position) returns (s: Scan)
    requires ValidMap(g.board)
    ensures s == ChaseStep(g, ship, occupied, prev, p)
  {
    s := prev;
    if HasEnemyShip(g, p) {
      var d := UnsafeStep(g, ship, p, occupied);
      if d.Some? && CalculateDistance(g.board, p, ship.position) < s.best {
        s := Scan(CalculateDistance(g.board, p, ship.position), Some((p, d.value)));
      }
    }
  }

  /** Lines 43-53: the enemy cells within two of the dropoff, in
      getNeighbourhood order, each tried with navigateUnsafe. */
  method ChaseScan(g: Game, ship: Ship, dropoff: Position, occupied: set<Position>) returns (s: Scan)
    requires ValidMap(g.board)
    ensures s == ChaseFold(g, ship, occupied, Neighbourhood(g.board, dropoff, 2))
  {
    var cells := GetNeighbourhood(g.board, dropoff, 2);
    s := ChaseOver(g, ship, occupied, cells);
  }

  /** The chase loop over the listed cells. */
  method ChaseOver(g: Game, ship: Ship, occupied: set<Position>, cells: seq<Position>) returns (s: Scan)
    requires ValidMap(g.board)
    ensures s == ChaseFold(g, ship, occupied, cells)
  {
    s := Scan(Horizon, None);
    var i := 0;
    while i < |cells|
      invariant 0 <= i <= |cells|
      invariant s == ChaseFold(g, ship, occupied, cells[..i])
    {
      ChaseFoldNext(g, ship, occupied, cells, i);
      s := ChaseVisit(g, ship, occupied, s, cells[i]);
      i := i + 1;
    }
    assert cells[..|cells|] == cells;
  }

  // ---------------------------------------------------------------------
  // Waiting next to the dropoff (lines 61-82)

  /** A cell other than the dropoff that the guard has an unoccupied step
      toward. */
  predicate Candidate(g: Game, ship: Ship, dropoff: Position, occupied: set<Position>, p: Position)
    requires ValidMap(g.board)
  {
    p != dropoff && TowardUnsafe(g, ship, p, occupied).Some?
  }

  /** The loop of lines 65-76 as a value: a candidate strictly nearer
      than the best so far, or as near and free of ships, becomes the
      choice. */
  function HoldFold(g: Game, ship: Ship, dropoff: Position, occupied: set<Position>, cells: seq<Position>): Scan
    requires ValidMap(g.board)
  {
    if cells == [] then Scan(Horizon, None)
    else HoldStep(g, ship, dropoff, occupied, HoldFold(g, ship, dropoff, occupied, cells[..|cells| - 1]), cells[|cells| - 1])
  }

  /** One cell of the loop of lines 65-76. */
  function HoldStep(g: Game, ship: Ship, dropoff: Position, occupied: set<Position>, prev: Scan, p: Position): Scan
    requires ValidMap(g.board)
  {
    var gap := Gap(g.board, p, ship);
    if Candidate(g, ship, dropoff, occupied, p) && (gap < prev.best || (gap == prev.best && !HasShip(g, p)))
    then Scan(gap, Some((p, TowardUnsafe(g, ship, p, occupied).value)))
    else prev
  }

  /** The wait picks a candidate nearest the guard; a ship-free one
      whenever some nearest candidate is ship-free; and one exactly when a
      candidate lies nearer than the horizon or at it and free of ships. */
  lemma {:induction false} HoldFoldMeaning(g: Game, ship: Ship, dropoff: Position, occupied: set<Position>, cells: seq<Position>)
    requires ValidMap(g.board)
    ensures var r := HoldFold(g, ship, dropoff, occupied, cells);
      && r.best <= Horizon
      && (r.pick.None? ==> r.best == Horizon)
      && (r.pick.None? <==> forall q :: q in cells && Candidate(g, ship, dropoff, occupied, q) ==>
                              Gap(g.board, q, ship) > Horizon || (Gap(g.board, q, ship) == Horizon && HasShip(g, q)))
      && (r.pick.Some? ==>
            && r.pick.value.0 in cells && r.pick.value.0 != dropoff
            && TowardUnsafe(g, ship, r.pick.value.0, occupied) == Some(r.pick.value.1)
            && r.best == Gap(g.board, r.pick.value.0, ship)
            && (r.best < Horizon || !HasShip(g, r.pick.value.0)))
      && (forall q :: q in cells && Candidate(g, ship, dropoff, occupied, q) ==> r.best <= Gap(g.board, q, ship))
  {
    if cells != [] {
      var init := cells[..|cells| - 1];
      var p := cells[|cells| - 1];
      HoldFoldMeaning(g, ship, dropoff, occupied, init);
      assert forall q :: q in cells ==> q in init || q == p;
      var prev := HoldFold(g, ship, dropoff, occupied, init);
      var gap := Gap(g.board, p, ship);
      if Candidate(g, ship, dropoff, occupied, p) && (gap < prev.best || (gap == prev.best && !HasShip(g, p))) {
        assert HoldFold(g, ship, dropoff, occupied, cells) == Scan(gap, Some((p, TowardUnsafe(g, ship, p, occupied).value)));
      } else {
        assert HoldFold(g, ship, dropoff, occupied, cells) == prev;
      }
    }
  }

  /** The choice is free of ships whenever some candidate at the chosen
      distance is. */
  lemma {:induction false} HoldFoldPrefersFree(g: Game, ship: Ship, dropoff: Position, occupied: set<Position>, cells: seq<Position>)
    requires ValidMap(g.board)
    ensures var r := HoldFold(g, ship, dropoff, occupied, cells);
      r.pick.Some? ==> forall q :: q in cells && Candidate(g, ship, dropoff, occupied, q) && Gap(g.board, q, ship) == r.best && !HasShip(g, q) ==>
                         !HasShip(g, r.pick.value.0)
  {
    if cells != [] {
      var init := cells[..|cells| - 1];
      HoldFoldMeaning(g, ship, dropoff, occupied, init);
      HoldFoldPrefersFree(g, ship, dropoff, occupied, init);
      assert forall q :: q in cells ==> q in init || q == cells[|cells| - 1];
    }
  }

  /** Ties go to a later ship-free cell: one that is no farther than the
      best so far displaces the earlier choice. */
  lemma HoldPrefersLaterFree(g: Game, ship: Ship, dropoff: Position, occupied: set<Position>, cells: seq<Position>, p: Position)
    requires ValidMap(g.board)
    requires Candidate(g, ship, dropoff, occupied, p) && !HasShip(g, p)
    requires Gap(g.board, p, ship) <= HoldFold(g, ship, dropoff, occupied, cells).best
    ensures HoldFold(g, ship, dropoff, occupied, cells + [p]).pick == Some((p, TowardUnsafe(g, ship, p, occupied).value))
  {
    assert (cells + [p])[..|cells|] == cells;
  }

  /** One more cell for the wait. */
  lemma HoldFoldNext(g: Game, ship: Ship, dropoff: Position, occupied: set<Position>, cells: seq<Position>, i: int)
    requires ValidMap(g.board) && 0 <= i < |cells|
    ensures HoldFold(g, ship, dropoff, occupied, cells[..i + 1]) ==
      HoldStep(g, ship, dropoff, occupied, HoldFold(g, ship, dropoff, occupied, cells[..i]), cells[i])
  {
    assert cells[..i + 1][..i] == cells[..i];
  }

  /** Lines 66-75 for one cell: the dropoff is skipped, and a cell that
      navigateUnsafe can step toward replaces the choice when it is
      nearer, or as near and free of ships. */
  method HoldVisit(g: Game, ship: Ship, dropoff: Position, occupied: set<Position>, prev: Scan, p: Position) returns (s: Scan)
    requires ValidMap(g.board)
    ensures s == HoldStep(g, ship, dropoff, occupied, prev, p)
  {
    s := prev;
    if p != dropoff {
      var d := UnsafeStep(g, ship, p, occupied);
      if d.Some? {
        var distance := CalculateDistance(g.board, p, ship.position);
        var taken := g.cells(p).ship.Some?;
        if distance < s.best || (distance == s.best && !taken) {
          s := Scan(distance, Some((p, d.value)));
        }
      }
    }
  }

  /** Lines 63-76: the dropoff's neighbourhood of radius one, the dropoff
      itself skipped, each cell tried with navigateUnsafe. */
  method HoldScan(g: Game, ship: Ship, dropoff: Position, occupied: set<Position>) returns (s: Scan)
    requires ValidMap(g.board)
    ensures s == HoldFold(g, ship, dropoff, occupied, Neighbourhood(g.board, dropoff, 1))
  {
    var cells := GetNeighbourhood(g.board, dropoff, 1);
    s := HoldOver(g, ship, dropoff, occupied, cells);
  }

  /** The wait loop over the listed cells. */
  method HoldOver(g: Game, ship: Ship, dropoff: Position, occupied: set<Position>, cells: seq<Position>) returns (s: Scan)
    requires ValidMap(g.board)
    ensures s == HoldFold(g, ship, dropoff, occupied, cells)
  {
    s := Scan(Horizon, None);
    var i := 0;
    while i < |cells|
      invariant 0 <= i <= |cells|
      invariant s == HoldFold(g, ship, dropoff, occupied, cells[..i])
    {
      HoldFoldNext(g, ship, dropoff, occupied, cells, i);
      s := HoldVisit(g, ship, dropoff, occupied, s, cells[i]);
      i := i + 1;
    }
    assert cells[..|cells|] == cells;
  }

  // ---------------------------------------------------------------------
  // One guard's move (lines 28-94)

  /** What one guard does. `Enter` steps into the dropoff and allows a
      collision there; `lastTurn` tells the last-turn entry (line 30)
      from the fallback (line 85), after which no later guard moves. */
  datatype GuardPlan =
    | Enter(direction: Direction, lastTurn: bool)
    | Chase(direction: Direction)
    | Wait(direction: Direction)
    | Stuck

  /** getUnsafeMoves(ship.position, dropoff).get(0), which never fails:
      the list is [STILL] on the dropoff and one step per differing axis
      elsewhere. */
  function EntryStep(m: GameMap, ship: Ship, dropoff: Position): Direction
  {
    UnsafeMovesShape(m, ship.position, dropoff);
    GetUnsafeMoves(m, ship.position, dropoff)[0]
  }

  /** On a square map a guard on or next to the dropoff enters it with the
      entry step. */
  lemma EntryReachesDropoff(m: GameMap, ship: Ship, dropoff: Position)
    requires Square(m) && OnMap(m, ship.position) && OnMap(m, dropoff)
    requires CalculateDistance(m, ship.position, dropoff) <= 1
    ensures DirectionalOffset(m, ship.position, EntryStep(m, ship, dropoff)) == dropoff
  {
    var s := ship.position;
    UnsafeMovesShape(m, s, dropoff);
    if s == dropoff {
      OffsetStill(m, s);
    } else {
      var d := EntryStep(m, ship, dropoff);
      UnsafeMovesApproach(m, s, dropoff, d);
      DistanceProperties(m, s, dropoff);
      DistanceProperties(m, DirectionalOffset(m, s, d), dropoff);
    }
  }

  /** The decision of lines 30-92 for a guard found among the remaining
      ships. */
  function PlanGuard(g: Game, ship: Ship, dropoff: Position, occupied: set<Position>): GuardPlan
    requires ValidMap(g.board)
  {
    var m := g.board;
    var near := CalculateDistance(m, ship.position, dropoff);
    if TurnsRemaining(g) == 0 && near <= 1 then Enter(EntryStep(m, ship, dropoff), true)
    else
      var chase := ChaseFold(g, ship, occupied, Neighbourhood(m, dropoff, 2));
      if chase.pick.Some? then Chase(chase.pick.value.1)
      else
        var hold := HoldFold(g, ship, dropoff, occupied, Neighbourhood(m, dropoff, 1));
        if hold.pick.Some? then Wait(hold.pick.value.1)
        else if near == 1 then Enter(EntryStep(m, ship, dropoff), false)
        else Stuck
  }

  /** Entering happens on the last turn exactly for a guard on or next to
      the dropoff, and otherwise only as the fallback, next to it. */
  lemma EnterPlan(g: Game, ship: Ship, dropoff: Position, occupied: set<Position>)
    requires ValidMap(g.board)
    ensures var plan := PlanGuard(g, ship, dropoff, occupied);
      && (TurnsRemaining(g) == 0 && CalculateDistance(g.board, ship.position, dropoff) <= 1 <==> plan.Enter? && plan.lastTurn)
      && (plan.Enter? && !plan.lastTurn ==> TurnsRemaining(g) != 0 && CalculateDistance(g.board, ship.position, dropoff) == 1)
      && (plan.Enter? ==> plan.direction == EntryStep(g.board, ship, dropoff))
  {
  }

  /** A chase steps toward an enemy within two of the dropoff that is
      nearest the guard among the enemies it can step toward, and onto an
      unoccupied cell. */
  lemma ChasePlan(g: Game, ship: Ship, dropoff: Position, occupied: set<Position>)
    requires ValidMap(g.board)
    ensures var plan := PlanGuard(g, ship, dropoff, occupied);
      var cells := Neighbourhood(g.board, dropoff, 2);
      && (plan.Chase? ==> exists p :: p in cells && HasEnemyShip(g, p) && TowardUnsafe(g, ship, p, occupied) == Some(plan.direction)
                            && Gap(g.board, p, ship) < Horizon
                            && forall q :: q in cells && Chaseable(g, ship, occupied, q) ==> Gap(g.board, p, ship) <= Gap(g.board, q, ship))
      && (plan.Chase? ==> DirectionalOffset(g.board, ship.position, plan.direction) !in occupied)
      && (!(TurnsRemaining(g) == 0 && CalculateDistance(g.board, ship.position, dropoff) <= 1) ==>
            (plan.Chase? <==> exists q :: q in cells && Chaseable(g, ship, occupied, q) && Gap(g.board, q, ship) < Horizon))
  {
    var plan := PlanGuard(g, ship, dropoff, occupied);
    var cells := Neighbourhood(g.board, dropoff, 2);
    var chase := ChaseFold(g, ship, occupied, cells);
    ChaseFoldMeaning(g, ship, occupied, cells);
    if plan.Chase? {
      assert chase.pick.Some? && plan.direction == chase.pick.value.1;
      var p := chase.pick.value.0;
      TowardUnsafeMeaning(g, ship, p, occupied);
      assert p in cells && TowardUnsafe(g, ship, p, occupied) == Some(plan.direction);
    } else if !(TurnsRemaining(g) == 0 && CalculateDistance(g.board, ship.position, dropoff) <= 1) {
      assert chase.pick.None?;
    }
  }

  /** A cell the wait may settle on: next to the dropoff, within the
      horizon, nearest the guard among the candidates, and free of ships
      when a nearest candidate is. */
  predicate BestWait(g: Game, ship: Ship, dropoff: Position, occupied: set<Position>, cells: seq<Position>, p: Position)
    requires ValidMap(g.board)
  {
    && p in cells && p != dropoff && Gap(g.board, p, ship) <= Horizon
    && (forall q :: q in cells && Candidate(g, ship, dropoff, occupied, q) ==> Gap(g.board, p, ship) <= Gap(g.board, q, ship))
    && (forall q :: q in cells && Candidate(g, ship, dropoff, occupied, q) && Gap(g.board, q, ship) == Gap(g.board, p, ship) && !HasShip(g, q) ==>
          !HasShip(g, p))
  }

  /** Waiting steps toward a best cell next to the dropoff, onto an
      unoccupied cell, and only when no enemy can be chased. */
  lemma WaitPlan(g: Game, ship: Ship, dropoff: Position, occupied: set<Position>)
    requires ValidMap(g.board)
    ensures var plan := PlanGuard(g, ship, dropoff, occupied);
      plan.Wait? ==>
        && (forall q :: q in Neighbourhood(g.board, dropoff, 2) && Chaseable(g, ship, occupied, q) ==> Gap(g.board, q, ship) >= Horizon)
        && DirectionalOffset(g.board, ship.position, plan.direction) !in occupied
        && exists p :: BestWait(g, ship, dropoff, occupied, Neighbourhood(g.board, dropoff, 1), p) && TowardUnsafe(g, ship, p, occupied) == Some(plan.direction)
  {
    var m := g.board;
    var plan := PlanGuard(g, ship, dropoff, occupied);
    if plan.Wait? {
      ChaseFoldMeaning(g, ship, occupied, Neighbourhood(m, dropoff, 2));
      var cells := Neighbourhood(m, dropoff, 1);
      var hold := HoldFold(g, ship, dropoff, occupied, cells);
      assert hold.pick.Some? && plan.direction == hold.pick.value.1;
      HoldFoldMeaning(g, ship, dropoff, occupied, cells);
      HoldFoldPrefersFree(g, ship, dropoff, occupied, cells);
      var p := hold.pick.value.0;
      TowardUnsafeMeaning(g, ship, p, occupied);
      assert BestWait(g, ship, dropoff, occupied, cells, p);
    }
  }

  /** The fallback: a guard is left without a move only when it is not
      next to the dropoff and neither scan found a step. */
  lemma StuckPlan(g: Game, ship: Ship, dropoff: Position, occupied: set<Position>)
    requires ValidMap(g.board)
    ensures var plan := PlanGuard(g, ship, dropoff, occupied);
      plan.Stuck? <==>
        && !(TurnsRemaining(g) == 0 && CalculateDistance(g.board, ship.position, dropoff) <= 1)
        && CalculateDistance(g.board, ship.position, dropoff) != 1
        && ChaseFold(g, ship, occupied, Neighbourhood(g.board, dropoff, 2)).pick.None?
        && HoldFold(g, ship, dropoff, occupied, Neighbourhood(g.board, dropoff, 1)).pick.None?
  {
  }

  /** Lines 30-92 as the source computes them, before any move is
      registered. */
  method ComputePlan(g: Game, ship: Ship, dropoff: Position, occupied: set<Position>) returns (plan: GuardPlan)
    requires ValidMap(g.board)
    ensures plan == PlanGuard(g, ship, dropoff, occupied)
  {
    var near := CalculateDistance(g.board, ship.position, dropoff);
    if TurnsRemaining(g) == 0 && near <= 1 {
      var moves := GetUnsafeMoves(g.board, ship.position, dropoff);
      UnsafeMovesShape(g.board, ship.position, dropoff);
      return Enter(moves[0], true);
    }
    var chase := ChaseScan(g, ship, dropoff, occupied);
    if chase.pick.Some? {
      return Chase(chase.pick.value.1);
    }
    var hold := HoldScan(g, ship, dropoff, occupied);
    if hold.pick.Some? {
      return Wait(hold.pick.value.1);
    }
    if near == 1 {
      var moves := GetUnsafeMoves(g.board, ship.position, dropoff);
      UnsafeMovesShape(g.board, ship.position, dropoff);
      return Enter(moves[0], false);
    }
    return Stuck;
  }

  /** One guard's turn: the plan, then registerMove with its step and, for
      an entry, registerPossibleCollision at the dropoff. */
  method GuardTurn(mr: MoveRegister, ship: Ship, dropoff: Position) returns (plan: GuardPlan)
    requires mr.Valid()
    modifies mr
    ensures mr.Valid() && Evolved(old(mr.State()), mr.State(), {ship})
    ensures plan == PlanGuard(mr.game, ship, dropoff, old(mr.occupiedPositions))
    ensures plan.Stuck? ==> mr.State() == old(mr.State())
    ensures plan.Enter? ==> dropoff in mr.collisionsAllowed
    ensures !plan.Stuck? && ship in old(mr.remainingShips) ==>
      ship !in mr.remainingShips && Move(mr.game.board, ship, plan.direction).destination in mr.occupiedPositions
  {
    plan := ComputePlan(mr.game, ship, dropoff, mr.occupiedPositions);
    if plan.Stuck? {
      return;
    }
    var ok := mr.RegisterMove(ship, plan.direction);
    if plan.Enter? {
      ghost var before := mr.State();
      mr.RegisterPossibleCollision(dropoff);
      assert Evolved(before, mr.State(), {});
      EvolvedWiden(before, mr.State(), {}, {ship});
      EvolvedTrans(old(mr.State()), before, mr.State(), {ship});
    }
  }

  // ---------------------------------------------------------------------
  // All guards (lines 18-96)

  /** The remaining ships that are guards. */
  function Guards(remaining: set<Ship>, guards: map<nat, Position>): (r: set<Ship>)
    ensures forall s :: s in r <==> s in remaining && s.id in guards
  {
    set s | s in remaining && s.id in guards
  }

  /** The stream filter of line 20: some remaining ship with the id, if
      there is one. */
  method FindGuard(remaining: set<Ship>, id: nat) returns (r: Option<Ship>)
    ensures r.Some? ==> r.value in remaining && r.value.id == id
    ensures r.None? <==> forall s :: s in remaining ==> s.id != id
  {
    if s :| s in remaining && s.id == id {
      return Some(s);
    }
    return None;
  }

  /** One guard id of the loop: skipped when no remaining ship has it. The
      result tells whether the fallback of line 91 ended the loop. */
  method GuardOne(mr: MoveRegister, guards: map<nat, Position>, id: nat) returns (ended: bool)
    requires mr.Valid() && id in guards
    modifies mr
    ensures mr.Valid() && Evolved(old(mr.State()), mr.State(), Guards(old(mr.remainingShips), guards))
    ensures (forall s :: s in old(mr.remainingShips) ==> s.id != id) ==> !ended && mr.State() == old(mr.State())
    ensures ended ==> guards[id] in mr.collisionsAllowed
  {
    ghost var start := mr.State();
    ghost var all := Guards(mr.remainingShips, guards);
    var found := FindGuard(mr.remainingShips, id);
    if found.None? {
      EvolvedRefl(start);
      EvolvedWiden(start, start, {}, all);
      return false;
    }
    var ship := found.value;
    var plan := GuardTurn(mr, ship, guards[id]);
    EvolvedWiden(start, mr.State(), {ship}, all);
    ended := plan.Enter? && !plan.lastTurn;
  }

  /** getGuardingMoves(game, moveRegister, guardShips): the guard ids in
      the map's key order, which the source leaves to the hash map and is
      any order here. Only guards are moved, and the first fallback entry
      ends the pass. */
  method GetGuardingMoves(mr: MoveRegister, guards: map<nat, Position>)
    requires mr.Valid()
    modifies mr
    ensures mr.Valid() && Evolved(old(mr.State()), mr.State(), Guards(old(mr.remainingShips), guards))
  {
    ghost var start := mr.State();
    ghost var all := Guards(mr.remainingShips, guards);
    EvolvedRefl(start);
    EvolvedWiden(start, start, {}, all);
    var ids := guards.Keys;
    while ids != {}
      invariant ids <= guards.Keys
      invariant mr.Valid() && Evolved(start, mr.State(), all)
      decreases |ids|
    {
      var id :| id in ids;
      ids := ids - {id};
      ghost var before := mr.State();
      var ended := GuardOne(mr, guards, id);
      GuardsShrink(before.remaining, start.remaining, guards);
      EvolvedWiden(before, mr.State(), Guards(before.remaining, guards), all);
      EvolvedTrans(start, before, mr.State(), all);
      if ended {
        return;
      }
    }
  }

  /** Fewer remaining ships, fewer remaining guards. */
  lemma GuardsShrink(remaining: set<Ship>, earlier: set<Ship>, guards: map<nat, Position>)
    requires remaining <= earlier
    ensures Guards(remaining, guards) <= Guards(earlier, guards)
  {
  }
}
