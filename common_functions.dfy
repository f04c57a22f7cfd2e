/** Shared helpers of the bot (bots/current_bot/utils/CommonFunctions.java):
    the diamond neighbourhood, mining and move-cost arithmetic, structure
    lists and ship lookups. */
module CommonFunctions {
  import opened Wrappers
  import opened Geometry
  import opened World

  // ---------------------------------------------------------------------
  // getNeighbourhood

  /** The offsets ring `sum` contributes for column x: (x, y) and, when y is
      not zero, (x, -y), with y = sum - |x|. */
  function RingCell(sum: int, x: int): seq<(int, int)>
  {
    var y := sum - Abs(x);
    if y != 0 then [(x, y), (x, -y)] else [(x, y)]
  }

  /** The offsets of ring `sum` for the columns -sum .. x-1, in loop order. */
  function RingUpTo(sum: int, x: int): seq<(int, int)>
    requires 0 <= sum && -sum <= x <= sum + 1
    decreases x + sum
  {
    if x == -sum then [] else RingUpTo(sum, x - 1) + RingCell(sum, x - 1)
  }

  /** All offsets of the diamond of radius d, ring by ring. */
  function DiamondOffsets(d: int): seq<(int, int)>
    decreases d
  {
    if d < 0 then [] else DiamondOffsets(d - 1) + RingUpTo(d, d + 1)
  }

  function OffsetsFrom(m: GameMap, p: Position, offs: seq<(int, int)>): seq<Position>
    requires ValidMap(m)
  {
    seq(|offs|, i requires 0 <= i < |offs| => WithVectorOffset(m, p, offs[i].0, offs[i].1))
  }

  /** The positions getNeighbourhood lists. */
  function Neighbourhood(m: GameMap, p: Position, d: int): seq<Position>
    requires ValidMap(m)
  {
    OffsetsFrom(m, p, DiamondOffsets(d))
  }

  lemma OffsetsFromAppend(m: GameMap, p: Position, offs: seq<(int, int)>, more: seq<(int, int)>)
    requires ValidMap(m)
    ensures OffsetsFrom(m, p, offs + more) == OffsetsFrom(m, p, offs) + OffsetsFrom(m, p, more)
  {
  }

  /** One column of the inner loop appends exactly that column's offsets. */
  lemma RingStep(m: GameMap, p: Position, done: seq<(int, int)>, sum: int, x: int, before: seq<Position>, after: seq<Position>)
    requires ValidMap(m) && 0 <= sum && -sum <= x <= sum
    requires before == OffsetsFrom(m, p, done + RingUpTo(sum, x))
    requires var y := sum - Abs(x);
      after == before + [WithVectorOffset(m, p, x, y)] + (if y != 0 then [WithVectorOffset(m, p, x, -y)] else [])
    ensures after == OffsetsFrom(m, p, done + RingUpTo(sum, x + 1))
  {
    assert done + RingUpTo(sum, x + 1) == (done + RingUpTo(sum, x)) + RingCell(sum, x);
    OffsetsFromAppend(m, p, done + RingUpTo(sum, x), RingCell(sum, x));
  }

  /** getNeighbourhood: the loops of the source, proved to list exactly the
      diamond's offsets in order. */
  method GetNeighbourhood(m: GameMap, position: Position, distance: int) returns (neighbourhood: seq<Position>)
    requires ValidMap(m)
    ensures neighbourhood == Neighbourhood(m, position, distance)
  {
    neighbourhood := [];
    var sum := 0;
    while sum <= distance
      invariant 0 <= sum && (distance >= 0 ==> sum <= distance + 1) && (distance < 0 ==> sum == 0)
      invariant neighbourhood == OffsetsFrom(m, position, DiamondOffsets(sum - 1))
    {
      var x := -sum;
      while x <= sum
        invariant -sum <= x <= sum + 1
        invariant neighbourhood == OffsetsFrom(m, position, DiamondOffsets(sum - 1) + RingUpTo(sum, x))
      {
        var y := sum - Abs(x);
        ghost var before := neighbourhood;
        neighbourhood := neighbourhood + [WithVectorOffset(m, position, x, y)];
        if y != 0 {
          neighbourhood := neighbourhood + [WithVectorOffset(m, position, x, -y)];
        }
        RingStep(m, position, DiamondOffsets(sum - 1), sum, x, before, neighbourhood);
        x := x + 1;
      }
      sum := sum + 1;
    }
    if distance < 0 {
      assert DiamondOffsets(distance) == [] == DiamondOffsets(sum - 1);
    } else {
      assert sum - 1 == distance;
    }
  }

  lemma {:induction false} RingUpToSize(sum: int, x: int)
    requires 0 <= sum && -sum <= x <= sum + 1
    ensures |RingUpTo(sum, x)| == if x == -sum then 0 else if sum == 0 || x <= sum then 2 * (x + sum) - 1 else 4 * sum
    decreases x + sum
  {
    if x != -sum {
      RingUpToSize(sum, x - 1);
    }
  }

  /** The diamond of radius d has 1 + 2d(d+1) cells. */
  lemma {:induction false} DiamondSize(d: nat)
    ensures |DiamondOffsets(d)| == 1 + 2 * d * (d + 1)
  {
    RingUpToSize(d, d + 1);
    assert |DiamondOffsets(d)| == |DiamondOffsets(d - 1)| + |RingUpTo(d, d + 1)|;
    if d > 0 {
      DiamondSize(d - 1);
      DiamondStep(d);
    }
  }

  lemma DiamondStep(d: int)
    ensures 1 + 2 * (d - 1) * d + 4 * d == 1 + 2 * d * (d + 1)
  {
  }

  lemma {:induction false} RingUpToWithin(sum: int, x: int)
    requires 0 <= sum && -sum <= x <= sum + 1
    ensures forall i :: 0 <= i < |RingUpTo(sum, x)| ==>
      Abs(RingUpTo(sum, x)[i].0) + Abs(RingUpTo(sum, x)[i].1) == sum && RingUpTo(sum, x)[i].0 < x
    decreases x + sum
  {
    if x != -sum {
      RingUpToWithin(sum, x - 1);
    }
  }

  lemma {:induction false} RingUpToHas(sum: int, x: int, a: int, b: int)
    requires 0 <= sum && -sum <= x <= sum + 1
    requires -sum <= a < x && Abs(a) + Abs(b) == sum
    ensures (a, b) in RingUpTo(sum, x)
    decreases x + sum
  {
    if a < x - 1 {
      RingUpToHas(sum, x - 1, a, b);
    } else {
      assert (a, b) in RingCell(sum, x - 1);
    }
  }

  /** The diamond holds exactly the offsets whose Manhattan length is at
      most d. */
  lemma {:induction false} DiamondExact(d: int, a: int, b: int)
    ensures (a, b) in DiamondOffsets(d) <==> Abs(a) + Abs(b) <= d
    decreases d
  {
    if d >= 0 {
      DiamondExact(d - 1, a, b);
      RingUpToWithin(d, d + 1);
      if Abs(a) + Abs(b) == d {
        RingUpToHas(d, d + 1, a, b);
      }
      if (a, b) in RingUpTo(d, d + 1) {
        var i :| 0 <= i < |RingUpTo(d, d + 1)| && RingUpTo(d, d + 1)[i] == (a, b);
      }
    }
  }

  /** The first entry of getNeighbourhood is the centre itself. */
  lemma NeighbourhoodStartsAtCentre(m: GameMap, p: Position, d: nat)
    requires ValidMap(m) && OnMap(m, p)
    ensures |Neighbourhood(m, p, d)| == 1 + 2 * d * (d + 1)
    ensures Neighbourhood(m, p, d)[0] == p
  {
    DiamondSize(d);
    DiamondPrefix(d);
  }

  lemma {:induction false} DiamondPrefix(d: nat)
    ensures |DiamondOffsets(d)| >= 1 && DiamondOffsets(d)[0] == (0, 0)
  {
    if d > 0 {
      DiamondPrefix(d - 1);
    }
  }

  lemma AxisWrapDistance(n: int, a: int, o: int)
    requires n > 0 && 0 <= a < n && -n <= o <= n
    ensures 0 <= Wrap(n, a + o) < n
    ensures AxisDistance(n, a, Wrap(n, a + o)) <= Abs(o)
  {
  }

  lemma OffsetWithin(m: GameMap, p: Position, a: int, b: int)
    requires Square(m) && OnMap(m, p) && Abs(a) <= m.width && Abs(b) <= m.width
    ensures OnMap(m, WithVectorOffset(m, p, a, b))
    ensures CalculateDistance(m, p, WithVectorOffset(m, p, a, b)) <= Abs(a) + Abs(b)
  {
    AxisWrapDistance(m.height, p.x, a);
    AxisWrapDistance(m.width, p.y, b);
  }

  /** On a square map, every neighbourhood cell lies on the map within the
      given distance of the centre (for radii up to the side length). */
  lemma NeighbourhoodWithin(m: GameMap, p: Position, d: int)
    requires Square(m) && OnMap(m, p) && d <= m.width
    ensures forall q :: q in Neighbourhood(m, p, d) ==> OnMap(m, q) && CalculateDistance(m, p, q) <= d
  {
    var offs := DiamondOffsets(d);
    forall q | q in Neighbourhood(m, p, d)
      ensures OnMap(m, q) && CalculateDistance(m, p, q) <= d
    {
      var i :| 0 <= i < |offs| && q == OffsetsFrom(m, p, offs)[i];
      DiamondExact(d, offs[i].0, offs[i].1);
      OffsetWithin(m, p, offs[i].0, offs[i].1);
    }
  }

  // ---------------------------------------------------------------------
  // Mining and move costs

  lemma MulMono(a: int, b: int, k: int)
    requires a <= b && k >= 0
    ensures a * k <= b * k
  {
    assert b * k - a * k == (b - a) * k;
  }

  /** Rounding a division up stays within the dividend, and is positive for
      a positive dividend. */
  lemma CeilDivBounds(h: int, k: int)
    requires h >= 0 && k > 0
    ensures 0 <= (h + k - 1) / k <= h
    ensures h > 0 ==> (h + k - 1) / k >= 1
  {
    var q := (h + k - 1) / k;
    DivBounds(h + k - 1, k);
    if q > h {
      MulMono(h + 1, q, k);
      assert (h + 1) * k == h * k + k;
      if h > 0 {
        MulAtLeast(k, h);
      }
      assert false;
    }
    if h > 0 && q == 0 {
      assert false;
    }
  }

  /** mineAmount(shipHalite, halite): a quarter of the cell rounded up,
      capped by the room left in the hold. */
  function MineAmount(c: Constants, shipHalite: int, halite: nat): (r: int)
    requires ValidConstants(c)
    ensures shipHalite + r <= c.maxHalite
    ensures r <= halite
    ensures shipHalite <= c.maxHalite && halite > 0 ==> r >= (if shipHalite < c.maxHalite then 1 else 0)
  {
    CeilDivBounds(halite, c.extractRatio);
    Min((halite + c.extractRatio - 1) / c.extractRatio, c.maxHalite - shipHalite)
  }

  /** mineAmount(Ship, halite). */
  function MineAmountForShip(c: Constants, ship: Ship, halite: nat): (r: int)
    requires ValidConstants(c)
    ensures r == MineAmount(c, ship.halite, halite)
  {
    Min((halite + c.extractRatio - 1) / c.extractRatio, c.maxHalite - ship.halite)
  }

  /** mineAmount(Ship, halite, inspiration): with inspiration the extract
      gains its bonus share (truncated) before the hold cap. */
  function MineAmountInspired(c: Constants, ship: Ship, halite: nat, inspiration: bool): (r: int)
    requires ValidConstants(c)
    ensures ship.halite + r <= c.maxHalite
    ensures !inspiration ==> r == MineAmount(c, ship.halite, halite)
    ensures r >= MineAmount(c, ship.halite, halite)
  {
    if !inspiration then MineAmountForShip(c, ship, halite)
    else
      var extract := (halite + c.extractRatio - 1) / c.extractRatio;
      var bonus := (extract as real * c.inspiredBonusMultiplier).Floor;
      Min(c.maxHalite - ship.halite, extract + bonus)
  }

  /** moveCost: the integer share of a cell's halite paid to leave it. */
  function MoveCost(c: Constants, halite: nat): (r: nat)
    requires ValidConstants(c)
    ensures r <= halite
    ensures r * c.moveCostRatio <= halite < (r + 1) * c.moveCostRatio
  {
    DivBounds(halite, c.moveCostRatio);
    halite / c.moveCostRatio
  }

  // ---------------------------------------------------------------------
  // Structures and ships

  /** getDropoffPositions: the shipyard, then the planned site if any, then
      the dropoffs. */
  function GetDropoffPositions(me: Player, plan: Option<DropoffPlan>): (r: seq<Position>)
    ensures |r| == 1 + (if plan.Some? then 1 else 0) + |me.dropoffs|
    ensures r[0] == me.shipyard
    ensures plan.Some? ==> r[1] == plan.value.destination
    ensures r[|r| - |me.dropoffs|..] == me.dropoffs
  {
    [me.shipyard] + (if plan.Some? then [plan.value.destination] else []) + me.dropoffs
  }

  predicate HasFriendlyShip(g: Game, p: Position)
  {
    g.cells(p).ship.Some? && g.cells(p).ship.value.owner == g.me.id
  }

  /** hasEnemyShip(game, position, player): a ship of anyone but `player`. */
  predicate HasEnemyShipOf(g: Game, p: Position, player: Player)
  {
    g.cells(p).ship.Some? && g.cells(p).ship.value.owner != player.id
  }

  predicate HasEnemyShip(g: Game, p: Position)
  {
    HasEnemyShipOf(g, p, g.me)
  }

  predicate HasFriendlyStructure(g: Game, p: Position)
  {
    g.cells(p).structureOwner == Some(g.me.id)
  }

  /** A ship on a cell is either ours or an enemy's, never both. */
  lemma ShipOwnershipSplit(g: Game, p: Position)
    ensures HasShip(g, p) <==> HasFriendlyShip(g, p) || HasEnemyShip(g, p)
    ensures !(HasFriendlyShip(g, p) && HasEnemyShip(g, p))
  {
  }

  /** The friendly ships standing on the listed cells, in list order. */
  function FriendlyShipsOn(g: Game, ps: seq<Position>): seq<Ship>
  {
    if ps == [] then []
    else
      var last := ps[|ps| - 1];
      FriendlyShipsOn(g, ps[..|ps| - 1]) + (if HasFriendlyShip(g, last) then [g.cells(last).ship.value] else [])
  }

  lemma {:induction false} FriendlyShipsOnSound(g: Game, ps: seq<Position>)
    ensures |FriendlyShipsOn(g, ps)| <= |ps|
    ensures forall s :: s in FriendlyShipsOn(g, ps) ==> s.owner == g.me.id && exists q :: q in ps && g.cells(q).ship == Some(s)
  {
    if ps != [] {
      FriendlyShipsOnSound(g, ps[..|ps| - 1]);
      forall s | s in FriendlyShipsOn(g, ps)
        ensures s.owner == g.me.id && exists q :: q in ps && g.cells(q).ship == Some(s)
      {
        if s in FriendlyShipsOn(g, ps[..|ps| - 1]) {
          var q :| q in ps[..|ps| - 1] && g.cells(q).ship == Some(s);
          assert q in ps;
        } else {
          assert g.cells(ps[|ps| - 1]).ship == Some(s);
        }
      }
    }
  }

  /** ourShipsNearby: our ships within the given radius, in neighbourhood
      order. */
  method OurShipsNearby(g: Game, position: Position, radius: int) returns (ourShips: seq<Ship>)
    requires ValidMap(g.board)
    ensures ourShips == FriendlyShipsOn(g, Neighbourhood(g.board, position, radius))
  {
    var ps := GetNeighbourhood(g.board, position, radius);
    ourShips := [];
    var i := 0;
    while i < |ps|
      invariant 0 <= i <= |ps|
      invariant ourShips == FriendlyShipsOn(g, ps[..i])
    {
      assert ps[..i + 1][..i] == ps[..i];
      if HasFriendlyShip(g, ps[i]) {
        ourShips := ourShips + [g.cells(ps[i]).ship.value];
      }
      i := i + 1;
    }
    assert ps[..|ps|] == ps;
  }

  /** nearestFriendlyShip: the distance to our closest ship, or 1000 when
      every ship is further (or there are none). */
  method NearestFriendlyShip(g: Game, dest: Position) returns (distance: int)
    ensures distance <= 1000
    ensures forall s :: s in g.me.ships ==> distance <= CalculateDistance(g.board, dest, s.position)
    ensures distance == 1000 || exists s :: s in g.me.ships && distance == CalculateDistance(g.board, dest, s.position)
  {
    distance := 1000;
    var i := 0;
    while i < |g.me.ships|
      invariant 0 <= i <= |g.me.ships|
      invariant distance <= 1000
      invariant forall j :: 0 <= j < i ==> distance <= CalculateDistance(g.board, dest, g.me.ships[j].position)
      invariant distance == 1000 || exists j :: 0 <= j < i && distance == CalculateDistance(g.board, dest, g.me.ships[j].position)
    {
      distance := Min(distance, CalculateDistance(g.board, dest, g.me.ships[i].position));
      i := i + 1;
    }
  }
}
