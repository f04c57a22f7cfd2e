/** The direction tiebreakers the navigation functions fold over their
    candidate moves (the four Tiebreaker classes in bots/current_bot/navigation). Each
    picks one of two directions; the random one is a nondeterministic
    choice and is resolved by `Choose`. */
module Tiebreakers {
  import opened Geometry
  import opened World

  /** The tiebreaker object: its class, with the state its constructor
      fixes. */
  datatype Tiebreaker =
    | LongerAxis(xBetter: bool)
    | Clockwise
    | PreferredAxis(preferred: Direction)
    | LowHalite
    | RandomChoice

  predicate EastOrWest(d: Direction)
  {
    d == East || d == West
  }

  /** LongerAxisTiebreaker's constructor: favour the x axis exactly when the
      wrapped x distance to the target exceeds the wrapped y distance. */
  function MakeLongerAxis(g: Game, ship: Ship, pos: Position): (tb: Tiebreaker)
    ensures tb.LongerAxis?
    ensures tb.xBetter <==> AxisDistance(g.board.width, ship.position.x, pos.x) > AxisDistance(g.board.height, ship.position.y, pos.y)
  {
    var dx := Abs(ship.position.x - pos.x);
    var dy := Abs(ship.position.y - pos.y);
    var toroidalDx := Min(dx, g.board.width - dx);
    var toroidalDy := Min(dy, g.board.height - dy);
    LongerAxis(toroidalDx > toroidalDy)
  }

  /** LongerAxisTiebreaker.betterDirection: keep d1 when it lies on the
      favoured axis (STILL counts as off the x axis), otherwise d2. */
  function LongerAxisBetter(xBetter: bool, d1: Direction, d2: Direction): (r: Direction)
    ensures r == d1 || r == d2
    ensures EastOrWest(d1) == xBetter ==> r == d1
    ensures EastOrWest(d1) != xBetter ==> r == d2
  {
    if xBetter != EastOrWest(d1) then d2 else d1
  }

  /** ClockwiseTiebreaker.betterDirection. */
  function ClockwiseBetter(d1: Direction, d2: Direction): (r: Direction)
    ensures r == d1 || r == d2
    ensures d1 == Still ==> r == d2
    ensures d2 == Still && d1 != Still ==> r == d1
  {
    if d1 == Still then d2
    else if d2 == Still then d1
    else if d1 == North then (if d2 == East then d1 else d2)
    else if d1 == South then (if d2 == West then d1 else d2)
    else if d1 == East then (if d2 == South then d1 else d2)
    else if d1 == West then (if d2 == North then d1 else d2)
    else d1
  }

  /** The clockwise order of cardinals: a beats the cardinal a quarter turn
      clockwise from it. */
  predicate ClockwiseBeats(a: Direction, b: Direction)
  {
    (a == North && b == East) || (a == East && b == South)
    || (a == South && b == West) || (a == West && b == North)
  }

  /** N beats E, E beats S, S beats W, W beats N, in either argument order;
      two cardinals that are not neighbours in that cycle (opposites, or a
      direction and itself) give d2. */
  lemma ClockwiseOrder(d1: Direction, d2: Direction)
    requires d1 != Still && d2 != Still
    ensures ClockwiseBeats(d1, d2) ==> ClockwiseBetter(d1, d2) == d1 && ClockwiseBetter(d2, d1) == d1
    ensures !ClockwiseBeats(d1, d2) && !ClockwiseBeats(d2, d1) ==> ClockwiseBetter(d1, d2) == d2
  {
  }

  /** Opposite directions make the clockwise result depend on argument
      order. */
  lemma ClockwiseOppositeOrderDependent()
    ensures ClockwiseBetter(North, South) == South && ClockwiseBetter(South, North) == North
    ensures ClockwiseBetter(East, West) == West && ClockwiseBetter(West, East) == East
  {
  }

  /** PreferredAxisTiebreaker.betterDirection: keep d1 exactly when its axis
      differs from the preferred direction's axis (STILL is classed with
      north and south). */
  function PreferredAxisBetter(preferred: Direction, d1: Direction, d2: Direction): (r: Direction)
    ensures r == d1 || r == d2
    ensures EastOrWest(d1) != EastOrWest(preferred) ==> r == d1
    ensures EastOrWest(d1) == EastOrWest(preferred) ==> r == d2
  {
    if EastOrWest(d1) != EastOrWest(preferred) then d1 else d2
  }

  /** The halite on the cell a direction leads the ship to. */
  function TargetHalite(g: Game, ship: Ship, d: Direction): nat
    requires ValidMap(g.board)
  {
    g.cells(DirectionalOffset(g.board, ship.position, d)).halite
  }

  /** LowHaliteTiebreaker.betterDirection: the direction to the cell with
      strictly less halite, d2 on equal halite. */
  function LowHaliteBetter(g: Game, ship: Ship, d1: Direction, d2: Direction): (r: Direction)
    requires ValidMap(g.board)
    ensures r == d1 || r == d2
    ensures TargetHalite(g, ship, r) == Min(TargetHalite(g, ship, d1), TargetHalite(g, ship, d2))
    ensures TargetHalite(g, ship, d1) < TargetHalite(g, ship, d2) ==> r == d1
    ensures TargetHalite(g, ship, d1) >= TargetHalite(g, ship, d2) ==> r == d2
  {
    if TargetHalite(g, ship, d1) < TargetHalite(g, ship, d2) then d1 else d2
  }

  predicate Deterministic(tb: Tiebreaker)
  {
    !tb.RandomChoice?
  }

  /** betterDirection of a deterministic tiebreaker. */
  function Better(tb: Tiebreaker, g: Game, ship: Ship, d1: Direction, d2: Direction): (r: Direction)
    requires ValidMap(g.board) && Deterministic(tb)
    ensures r == d1 || r == d2
    ensures d1 == d2 ==> r == d1
  {
    match tb
    case LongerAxis(xBetter) => LongerAxisBetter(xBetter, d1, d2)
    case Clockwise => ClockwiseBetter(d1, d2)
    case PreferredAxis(preferred) => PreferredAxisBetter(preferred, d1, d2)
    case LowHalite => LowHaliteBetter(g, ship, d1, d2)
  }

  /** betterDirection of any tiebreaker: the random one (RandomTiebreaker,
      backed by a seeded java.util.Random) picks either argument. */
  method Choose(tb: Tiebreaker, g: Game, ship: Ship, d1: Direction, d2: Direction) returns (r: Direction)
    requires ValidMap(g.board)
    ensures r == d1 || r == d2
    ensures Deterministic(tb) ==> r == Better(tb, g, ship, d1, d2)
  {
    if Deterministic(tb) {
      r := Better(tb, g, ship, d1, d2);
    } else if * {
      r := d1;
    } else {
      r := d2;
    }
  }

  /** The favoured axis of a longer-axis tiebreaker built for a target is
      an axis along which getUnsafeMoves offers a step toward it. */
  lemma {:induction false} LongerAxisFavoursAvailableAxis(g: Game, ship: Ship, pos: Position)
    requires Square(g.board) && OnMap(g.board, ship.position) && OnMap(g.board, pos)
    requires ship.position != pos
    ensures exists d :: d in GetUnsafeMoves(g.board, ship.position, pos) && EastOrWest(d) == MakeLongerAxis(g, ship, pos).xBetter
  {
    var s := ship.position;
    var tb := MakeLongerAxis(g, ship, pos);
    var moves := GetUnsafeMoves(g.board, s, pos);
    UnsafeMovesShape(g.board, s, pos);
    if tb.xBetter {
      assert s.x != pos.x;
      assert EastOrWest(moves[0]);
    } else {
      if s.y == pos.y {
        AxisDistanceBounds(g.board.width, s.x, pos.x);
        assert false;
      }
      assert !EastOrWest(moves[|moves| - 1]);
    }
  }
}
