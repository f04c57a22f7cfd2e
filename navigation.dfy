/** Navigation: single-step move choice. Each operation walks a list of
    candidate directions, drops those whose target cell is unusable, and
    folds the rest with a tiebreaker
    (bots/current_bot/navigation/Navigation.java). */
module Navigation {
  import opened Wrappers
  import opened Geometry
  import opened World
  import opened Tiebreakers

  /** Which target cells a navigation loop accepts, beyond not being in
      the occupied set. */
  datatype Filter =
    | Unoccupied                                  // navigateUnsafe; moveAnywhere's last tier
    | VisitableBy(ship: Ship)                     // canVisit(game, destination, ship)
    | VisitableWith(cargo: int, isCurrent: bool)  // canVisit(game, destination, halite, isCurrentPosition)
    | ShipFree                                    // !game.map.at(destination).hasShip()

  predicate Keeps(g: Game, occupied: set<Position>, f: Filter, target: Position)
  {
    target !in occupied &&
    match f
    case Unoccupied => true
    case VisitableBy(ship) => CanVisit(g, target, ship)
    case VisitableWith(cargo, isCurrent) => g.canVisitAt(target, cargo, isCurrent)
    case ShipFree => !HasShip(g, target)
  }

  /** The directions of `ds`, in order, whose target from `origin` the
      filter keeps. */
  function Filtered(g: Game, origin: Position, occupied: set<Position>, f: Filter, ds: seq<Direction>): (r: seq<Direction>)
    requires ValidMap(g.board)
    ensures |r| <= |ds|
  {
    if ds == [] then []
    else
      var last := ds[|ds| - 1];
      var rest := Filtered(g, origin, occupied, f, ds[..|ds| - 1]);
      if Keeps(g, occupied, f, DirectionalOffset(g.board, origin, last)) then rest + [last] else rest
  }

  /** A direction survives the filter exactly when it is a candidate whose
      target the filter keeps. */
  lemma {:induction false} FilteredMember(g: Game, origin: Position, occupied: set<Position>, f: Filter, ds: seq<Direction>, d: Direction)
    requires ValidMap(g.board)
    ensures d in Filtered(g, origin, occupied, f, ds) <==> d in ds && Keeps(g, occupied, f, DirectionalOffset(g.board, origin, d))
  {
    if ds != [] {
      var init := ds[..|ds| - 1];
      FilteredMember(g, origin, occupied, f, init, d);
      assert ds == init + [ds[|ds| - 1]];
    }
  }

  /** Claiming more cells cannot bring back a direction. */
  lemma FilteredEmptyGrows(g: Game, origin: Position, occupied: set<Position>, more: set<Position>, f: Filter, ds: seq<Direction>)
    requires ValidMap(g.board) && occupied <= more && Filtered(g, origin, occupied, f, ds) == []
    ensures Filtered(g, origin, more, f, ds) == []
  {
    var r := Filtered(g, origin, more, f, ds);
    if r != [] {
      FilteredMember(g, origin, more, f, ds, r[0]);
      FilteredMember(g, origin, occupied, f, ds, r[0]);
      assert false;
    }
  }

  /** The left fold of the navigation loops: the first candidate becomes the
      best, and each later candidate d replaces it by
      tiebreaker.betterDirection(d, best). */
  function Fold(tb: Tiebreaker, g: Game, ship: Ship, ds: seq<Direction>): (r: Option<Direction>)
    requires ValidMap(g.board) && Deterministic(tb)
    ensures r.Some? <==> ds != []
    ensures r.Some? ==> r.value in ds
  {
    if ds == [] then None
    else
      var last := ds[|ds| - 1];
      match Fold(tb, g, ship, ds[..|ds| - 1])
      case None => Some(last)
      case Some(best) => Some(Better(tb, g, ship, last, best))
  }

  lemma FoldSnoc(tb: Tiebreaker, g: Game, ship: Ship, done: seq<Direction>, d: Direction)
    requires ValidMap(g.board) && Deterministic(tb)
    ensures Fold(tb, g, ship, done + [d]) ==
      if done == [] then Some(d) else Some(Better(tb, g, ship, d, Fold(tb, g, ship, done).value))
  {
    assert (done + [d])[..|done|] == done;
  }

  lemma FilteredStep(g: Game, origin: Position, occupied: set<Position>, f: Filter, ds: seq<Direction>, i: int)
    requires ValidMap(g.board) && 0 <= i < |ds|
    ensures Filtered(g, origin, occupied, f, ds[..i + 1]) ==
      Filtered(g, origin, occupied, f, ds[..i]) +
      (if Keeps(g, occupied, f, DirectionalOffset(g.board, origin, ds[i])) then [ds[i]] else [])
  {
    assert ds[..i + 1][..i] == ds[..i];
  }

  /** One kept direction offered to the running choice: it is taken when
      nothing was chosen yet, and otherwise the tiebreaker decides. */
  method Consider(g: Game, ship: Ship, tb: Tiebreaker, best: Option<Direction>, ghost done: seq<Direction>, d: Direction)
    returns (r: Option<Direction>)
    requires ValidMap(g.board)
    requires best.Some? <==> done != []
    requires Deterministic(tb) ==> best == Fold(tb, g, ship, done)
    ensures r.Some? && (r.value == d || (best.Some? && r.value == best.value))
    ensures Deterministic(tb) ==> r == Fold(tb, g, ship, done + [d])
  {
    if Deterministic(tb) {
      FoldSnoc(tb, g, ship, done, d);
    }
    if best.None? {
      r := Some(d);
    } else {
      var better := Choose(tb, g, ship, d, best.value);
      r := Some(better);
    }
  }

  /** The loop shared by navigateUnsafe, navigate and each tier of
      moveAnywhere: scan `ds` in order, skip rejected targets, and fold the
      rest with the tiebreaker. */
  method BestAmong(g: Game, ship: Ship, ds: seq<Direction>, occupied: set<Position>, f: Filter, tb: Tiebreaker)
    returns (best: Option<Direction>)
    requires ValidMap(g.board)
    ensures best.Some? <==> Filtered(g, ship.position, occupied, f, ds) != []
    ensures best.Some? ==> best.value in ds && Keeps(g, occupied, f, DirectionalOffset(g.board, ship.position, best.value))
    ensures Deterministic(tb) ==> best == Fold(tb, g, ship, Filtered(g, ship.position, occupied, f, ds))
  {
    best := None;
    var i := 0;
    ghost var done: seq<Direction> := [];
    while i < |ds|
      invariant 0 <= i <= |ds|
      invariant done == Filtered(g, ship.position, occupied, f, ds[..i])
      invariant best.Some? <==> done != []
      invariant best.Some? ==> best.value in ds && Keeps(g, occupied, f, DirectionalOffset(g.board, ship.position, best.value))
      invariant Deterministic(tb) ==> best == Fold(tb, g, ship, done)
    {
      var d := ds[i];
      FilteredStep(g, ship.position, occupied, f, ds, i);
      assert ds[..i + 1] == ds[..i] + [d];
      var destination := DirectionalOffset(g.board, ship.position, d);
      if Keeps(g, occupied, f, destination) {
        best := Consider(g, ship, tb, best, done, d);
        done := done + [d];
      }
      i := i + 1;
    }
    assert ds[..|ds|] == ds;
  }

  /** Navigation.navigateUnsafe: the tiebreaker's pick among the
      getUnsafeMoves directions whose target is not occupied; empty exactly
      when every such target is occupied. */
  method NavigateUnsafe(g: Game, ship: Ship, position: Position, occupied: set<Position>, tb: Tiebreaker)
    returns (best: Option<Direction>)
    requires ValidMap(g.board)
    ensures best.Some? ==> best.value in GetUnsafeMoves(g.board, ship.position, position)
    ensures best.Some? ==> DirectionalOffset(g.board, ship.position, best.value) !in occupied
    ensures best.None? <==> forall d :: d in GetUnsafeMoves(g.board, ship.position, position) ==> DirectionalOffset(g.board, ship.position, d) in occupied
    ensures Deterministic(tb) ==> best == Fold(tb, g, ship, Filtered(g, ship.position, occupied, Unoccupied, GetUnsafeMoves(g.board, ship.position, position)))
  {
    var moves := GetUnsafeMoves(g.board, ship.position, position);
    best := BestAmong(g, ship, moves, occupied, Unoccupied, tb);
    if best.None? {
      forall d | d in moves ensures DirectionalOffset(g.board, ship.position, d) in occupied {
        FilteredMember(g, ship.position, occupied, Unoccupied, moves, d);
      }
    }
  }

  /** Navigation.navigate: as navigateUnsafe, and the chosen target also
      passes canVisit. */
  method Navigate(g: Game, ship: Ship, position: Position, occupied: set<Position>, tb: Tiebreaker)
    returns (best: Option<Direction>)
    requires ValidMap(g.board)
    ensures best.Some? ==> best.value in GetUnsafeMoves(g.board, ship.position, position)
    ensures best.Some? ==> DirectionalOffset(g.board, ship.position, best.value) !in occupied
    ensures best.Some? ==> CanVisit(g, DirectionalOffset(g.board, ship.position, best.value), ship)
    ensures best.None? <==> forall d :: d in GetUnsafeMoves(g.board, ship.position, position) ==>
      var t := DirectionalOffset(g.board, ship.position, d); t in occupied || !CanVisit(g, t, ship)
    ensures Deterministic(tb) ==> best == Fold(tb, g, ship, Filtered(g, ship.position, occupied, VisitableBy(ship), GetUnsafeMoves(g.board, ship.position, position)))
  {
    var moves := GetUnsafeMoves(g.board, ship.position, position);
    best := BestAmong(g, ship, moves, occupied, VisitableBy(ship), tb);
    if best.None? {
      forall d | d in moves ensures var t := DirectionalOffset(g.board, ship.position, d); t in occupied || !CanVisit(g, t, ship) {
        FilteredMember(g, ship.position, occupied, VisitableBy(ship), moves, d);
      }
    }
  }

  /** Navigation.navigateLongerAxisDefaultSafety: navigate with a longer-axis
      tiebreaker built for the target. */
  method NavigateLongerAxis(g: Game, ship: Ship, position: Position, occupied: set<Position>)
    returns (best: Option<Direction>)
    requires ValidMap(g.board)
    ensures best == Fold(MakeLongerAxis(g, ship, position), g, ship, Filtered(g, ship.position, occupied, VisitableBy(ship), GetUnsafeMoves(g.board, ship.position, position)))
  {
    best := Navigate(g, ship, position, occupied, MakeLongerAxis(g, ship, position));
  }

  /** Navigation.navigateAll: every getUnsafeMoves direction from `start`
      whose target is unoccupied and visitable with the given cargo, in
      getUnsafeMoves order. */
  method NavigateAll(g: Game, start: Position, shipHalite: int, dest: Position, isCurrentPosition: bool, occupied: set<Position>)
    returns (validDirections: seq<Direction>)
    requires ValidMap(g.board)
    ensures validDirections == Filtered(g, start, occupied, VisitableWith(shipHalite, isCurrentPosition), GetUnsafeMoves(g.board, start, dest))
  {
    var potentialDirections := GetUnsafeMoves(g.board, start, dest);
    validDirections := [];
    var i := 0;
    while i < |potentialDirections|
      invariant 0 <= i <= |potentialDirections|
      invariant validDirections == Filtered(g, start, occupied, VisitableWith(shipHalite, isCurrentPosition), potentialDirections[..i])
    {
      var d := potentialDirections[i];
      FilteredStep(g, start, occupied, VisitableWith(shipHalite, isCurrentPosition), potentialDirections, i);
      var destination := DirectionalOffset(g.board, start, d);
      if destination !in occupied && g.canVisitAt(destination, shipHalite, isCurrentPosition) {
        validDirections := validDirections + [d];
      }
      i := i + 1;
    }
    assert potentialDirections[..|potentialDirections|] == potentialDirections;
  }

  /** A cardinal whose target the filter keeps. */
  predicate SomeCardinalKept(g: Game, ship: Ship, occupied: set<Position>, f: Filter)
    requires ValidMap(g.board)
  {
    exists d :: d in AllCardinals && Keeps(g, occupied, f, DirectionalOffset(g.board, ship.position, d))
  }

  lemma KeptCardinal(g: Game, ship: Ship, occupied: set<Position>, f: Filter)
    requires ValidMap(g.board)
    ensures SomeCardinalKept(g, ship, occupied, f) <==> Filtered(g, ship.position, occupied, f, AllCardinals) != []
  {
    if SomeCardinalKept(g, ship, occupied, f) {
      var d :| d in AllCardinals && Keeps(g, occupied, f, DirectionalOffset(g.board, ship.position, d));
      FilteredMember(g, ship.position, occupied, f, AllCardinals, d);
    }
    var r := Filtered(g, ship.position, occupied, f, AllCardinals);
    if r != [] {
      FilteredMember(g, ship.position, occupied, f, AllCardinals, r[0]);
    }
  }

  /** One tier of moveAnywhere: the tiebreaker's pick among the cardinals
      the filter keeps, present exactly when there is one. */
  method BestCardinal(g: Game, ship: Ship, occupied: set<Position>, f: Filter, tb: Tiebreaker)
    returns (best: Option<Direction>)
    requires ValidMap(g.board)
    ensures best.Some? <==> SomeCardinalKept(g, ship, occupied, f)
    ensures best.Some? ==> best.value in AllCardinals && Keeps(g, occupied, f, DirectionalOffset(g.board, ship.position, best.value))
  {
    best := BestAmong(g, ship, AllCardinals, occupied, f, tb);
    KeptCardinal(g, ship, occupied, f);
  }

  /** Navigation.moveAnywhere, three tiers over ALL_CARDINALS: unoccupied
      and visitable; else unoccupied with no ship on the cell; else, only
      when the ship must move, any unoccupied cell, failing if there is
      none. A ship that need not move and finds nothing stays STILL, without
      any test of its own cell. */
  method MoveAnywhere(g: Game, ship: Ship, occupied: set<Position>, mustMove: bool, tb: Tiebreaker)
    returns (r: Result<Direction>)
    requires ValidMap(g.board)
    ensures r.Ok? && r.value != Still ==> r.value in AllCardinals && DirectionalOffset(g.board, ship.position, r.value) !in occupied
    ensures SomeCardinalKept(g, ship, occupied, VisitableBy(ship)) ==>
      r.Ok? && r.value in AllCardinals && Keeps(g, occupied, VisitableBy(ship), DirectionalOffset(g.board, ship.position, r.value))
    ensures !SomeCardinalKept(g, ship, occupied, VisitableBy(ship)) && SomeCardinalKept(g, ship, occupied, ShipFree) ==>
      r.Ok? && r.value in AllCardinals && Keeps(g, occupied, ShipFree, DirectionalOffset(g.board, ship.position, r.value))
    ensures mustMove ==> (r.Ok? ==> r.value != Still)
    ensures mustMove ==> (r.Err? <==> !SomeCardinalKept(g, ship, occupied, Unoccupied)) && (r.Err? ==> r.failure == NoMoveAvailable)
    ensures !mustMove ==> r.Ok?
    ensures !mustMove && !SomeCardinalKept(g, ship, occupied, VisitableBy(ship)) && !SomeCardinalKept(g, ship, occupied, ShipFree) ==> r == Ok(Still)
  {
    var best := BestCardinal(g, ship, occupied, VisitableBy(ship), tb);
    if best.Some? {
      return Ok(best.value);
    }
    best := BestCardinal(g, ship, occupied, ShipFree, tb);
    if best.Some? {
      return Ok(best.value);
    }
    if mustMove {
      best := BestCardinal(g, ship, occupied, Unoccupied, tb);
      if best.Some? {
        return Ok(best.value);
      } else {
        return Err(NoMoveAvailable);
      }
    }
    return Ok(Still);
  }

  /** Navigation.navigateLowHaliteDefaultSafety toward `target`: navigate
      with the low-halite tiebreaker, as a value. */
  function Toward(g: Game, ship: Ship, target: Position, occupied: set<Position>): Option<Direction>
    requires ValidMap(g.board)
  {
    Fold(LowHalite, g, ship, Filtered(g, ship.position, occupied, VisitableBy(ship), GetUnsafeMoves(g.board, ship.position, target)))
  }

  /** navigateUnsafe toward `target` with the low-halite tiebreaker, as a
      value. */
  function TowardUnsafe(g: Game, ship: Ship, target: Position, occupied: set<Position>): Option<Direction>
    requires ValidMap(g.board)
  {
    Fold(LowHalite, g, ship, Filtered(g, ship.position, occupied, Unoccupied, GetUnsafeMoves(g.board, ship.position, target)))
  }

  /** navigateUnsafe with the low-halite tiebreaker, reduced to its value. */
  method UnsafeStep(g: Game, ship: Ship, target: Position, occupied: set<Position>) returns (d: Option<Direction>)
    requires ValidMap(g.board)
    ensures d == TowardUnsafe(g, ship, target, occupied)
  {
    d := NavigateUnsafe(g, ship, target, occupied, LowHalite);
  }

  /** navigate with the low-halite tiebreaker, reduced to its value. */
  method SafeStep(g: Game, ship: Ship, target: Position, occupied: set<Position>) returns (d: Option<Direction>)
    requires ValidMap(g.board)
    ensures d == Toward(g, ship, target, occupied)
  {
    d := Navigate(g, ship, target, occupied, LowHalite);
  }

  /** The unsafe navigation finds a direction exactly when some offered
      step lands outside the occupied set, and then it is such a step. */
  lemma TowardUnsafeMeaning(g: Game, ship: Ship, target: Position, occupied: set<Position>)
    requires ValidMap(g.board)
    ensures var r := TowardUnsafe(g, ship, target, occupied);
      && (r.Some? ==> r.value in GetUnsafeMoves(g.board, ship.position, target)
                      && DirectionalOffset(g.board, ship.position, r.value) !in occupied)
      && (r.None? <==> forall d :: d in GetUnsafeMoves(g.board, ship.position, target) ==>
                         DirectionalOffset(g.board, ship.position, d) in occupied)
  {
    var ds := GetUnsafeMoves(g.board, ship.position, target);
    var r := TowardUnsafe(g, ship, target, occupied);
    if r.None? {
      forall d | d in ds ensures DirectionalOffset(g.board, ship.position, d) in occupied {
        FilteredMember(g, ship.position, occupied, Unoccupied, ds, d);
      }
    } else {
      FilteredMember(g, ship.position, occupied, Unoccupied, ds, r.value);
    }
  }
}
