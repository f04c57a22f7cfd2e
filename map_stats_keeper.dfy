/** MapStatsKeeper (bots/current_bot/navigation/MapStatsKeeper.java), its
    integer tables: which cells are inspired for each player, the nearest
    dropoff of every cell for each player, and the distance from every cell
    to the nearest enemy ship. The tables are rebuilt lazily, at most once a
    turn, and every query goes through that guard. */
module MapStats {
  import opened Wrappers
  import opened Geometry
  import opened World
  import opened CommonFunctions

  // ---------------------------------------------------------------------
  // The neighbourhood of radius one

  /** getNeighbourhood(p, 1) lists the centre, then its west, south, north
      and east neighbours. */
  lemma NeighbourhoodOne(m: GameMap, p: Position)
    requires ValidMap(m) && OnMap(m, p)
    ensures Neighbourhood(m, p, 1) == [p, DirectionalOffset(m, p, West), DirectionalOffset(m, p, South),
                                        DirectionalOffset(m, p, North), DirectionalOffset(m, p, East)]
  {
    DiamondOne();
    var ns := Neighbourhood(m, p, 1);
    OffsetStill(m, p);
    OffsetIsVector(m, p, Still);
    OffsetIsVector(m, p, West);
    OffsetIsVector(m, p, South);
    OffsetIsVector(m, p, North);
    OffsetIsVector(m, p, East);
    assert ns[0] == WithVectorOffset(m, p, 0, 0);
    assert ns[1] == WithVectorOffset(m, p, -1, 0);
    assert ns[2] == WithVectorOffset(m, p, 0, 1);
    assert ns[3] == WithVectorOffset(m, p, 0, -1);
    assert ns[4] == WithVectorOffset(m, p, 1, 0);
  }

  /** The offsets of the diamond of radius one, in the source's loop order. */
  lemma DiamondOne()
    ensures DiamondOffsets(1) == [(0, 0), (-1, 0), (0, 1), (0, -1), (1, 0)]
  {
    assert RingUpTo(1, 0) == RingCell(1, -1) == [(-1, 0)];
    assert RingUpTo(1, 1) == RingUpTo(1, 0) + RingCell(1, 0) == [(-1, 0), (0, 1), (0, -1)];
    assert RingUpTo(1, 2) == RingUpTo(1, 1) + RingCell(1, 1) == [(-1, 0), (0, 1), (0, -1), (1, 0)];
    assert DiamondOffsets(0) == [(0, 0)];
  }

  /** As a set: the centre and its four cardinal neighbours, all on the map. */
  lemma NeighbourhoodOneCells(m: GameMap, p: Position)
    requires ValidMap(m) && OnMap(m, p)
    ensures |Neighbourhood(m, p, 1)| == 5 && Neighbourhood(m, p, 1)[0] == p
    ensures forall n :: n in Neighbourhood(m, p, 1) <==> n == p || n in SurroundingCardinals(m, p)
    ensures forall n :: n in Neighbourhood(m, p, 1) ==> OnMap(m, n)
  {
    NeighbourhoodOne(m, p);
  }

  // ---------------------------------------------------------------------
  // Inspiration (getInspirationMap, lines 60-75)

  /** The number of listed cells holding a ship that is not `player`'s. */
  function EnemyCount(g: Game, ps: seq<Position>, player: Player): (r: nat)
    ensures r <= |ps|
  {
    if ps == [] then 0
    else EnemyCount(g, ps[..|ps| - 1], player) + (if HasEnemyShipOf(g, ps[|ps| - 1], player) then 1 else 0)
  }

  /** The count is positive exactly when some listed cell holds an enemy. */
  lemma {:induction false} EnemyCountPositive(g: Game, ps: seq<Position>, player: Player)
    ensures EnemyCount(g, ps, player) > 0 <==> exists q :: q in ps && HasEnemyShipOf(g, q, player)
  {
    if ps != [] {
      var init := ps[..|ps| - 1];
      EnemyCountPositive(g, init, player);
      if q :| q in init && HasEnemyShipOf(g, q, player) {
        assert q in ps;
      }
      if q :| q in ps && HasEnemyShipOf(g, q, player) {
        if q != ps[|ps| - 1] {
          var i :| 0 <= i < |ps| && ps[i] == q;
          assert init[i] == q;
        }
      }
    }
  }

  /** A cell is inspired for `player` when at least INSPIRATION_SHIP_COUNT
      enemy ships stand within INSPIRATION_RADIUS of it. */
  predicate Inspired(g: Game, player: Player, p: Position)
    requires ValidMap(g.board)
  {
    EnemyCount(g, Neighbourhood(g.board, p, g.consts.inspirationRadius), player) >= g.consts.inspirationShipCount
  }

  /** An inspired cell has an enemy ship within the radius, and no cell is
      inspired when the threshold exceeds the number of cells in reach. */
  lemma InspiredNeedsEnemies(g: Game, player: Player, p: Position)
    requires ValidGame(g) && Square(g.board) && OnMap(g.board, p) && g.consts.inspirationRadius <= g.board.width
    ensures Inspired(g, player, p) ==>
      exists q :: OnMap(g.board, q) && CalculateDistance(g.board, p, q) <= g.consts.inspirationRadius && HasEnemyShipOf(g, q, player)
    ensures var r := g.consts.inspirationRadius;
      g.consts.inspirationShipCount > 1 + 2 * r * (r + 1) ==> !Inspired(g, player, p)
  {
    var r := g.consts.inspirationRadius;
    var ps := Neighbourhood(g.board, p, r);
    NeighbourhoodStartsAtCentre(g.board, p, r);
    NeighbourhoodWithin(g.board, p, r);
    EnemyCountPositive(g, ps, player);
  }

  /** The inner loop of getInspirationMap: counting enemy ships around p. */
  method CountEnemies(g: Game, p: Position, player: Player) returns (enemies: int)
    requires ValidMap(g.board)
    ensures enemies == EnemyCount(g, Neighbourhood(g.board, p, g.consts.inspirationRadius), player)
  {
    var ps := GetNeighbourhood(g.board, p, g.consts.inspirationRadius);
    enemies := 0;
    for i := 0 to |ps|
      invariant enemies == EnemyCount(g, ps[..i], player)
    {
      assert ps[..i + 1][..i] == ps[..i];
      if g.cells(ps[i]).ship.Some? && g.cells(ps[i]).ship.value.owner != player.id {
        enemies := enemies + 1;
      }
    }
    assert ps[..|ps|] == ps;
  }

  /** getInspirationMap(game, player). Both loops run to the height, which
      covers the map because it is square. */
  method GetInspirationMap(g: Game, player: Player) returns (inspiration: map<Position, bool>)
    requires Square(g.board)
    ensures forall c :: c in inspiration <==> OnMap(g.board, c)
    ensures forall c :: c in inspiration ==> (inspiration[c] <==> Inspired(g, player, c))
  {
    inspiration := map[];
    for x := 0 to g.board.height
      invariant forall c :: c in inspiration <==> OnMap(g.board, c) && c.x < x
      invariant forall c :: c in inspiration ==> (inspiration[c] <==> Inspired(g, player, c))
    {
      for y := 0 to g.board.height
        invariant forall c :: c in inspiration <==> OnMap(g.board, c) && (c.x < x || (c.x == x && c.y < y))
        invariant forall c :: c in inspiration ==> (inspiration[c] <==> Inspired(g, player, c))
      {
        var pos := Position(x, y);
        var enemies := CountEnemies(g, pos, player);
        inspiration := inspiration[pos := enemies >= g.consts.inspirationShipCount];
      }
    }
  }

  // ---------------------------------------------------------------------
  // Nearest dropoff (lines 105-118, 560-578)

  /** The cells a player returns to: the shipyard first, then its dropoffs. */
  function Candidates(player: Player): seq<Position>
  {
    [player.shipyard] + player.dropoffs
  }

  /** The index the scan of lines 110-116 settles on: a later candidate
      replaces the best so far only when it is strictly closer. */
  function NearestIndex(m: GameMap, cell: Position, cands: seq<Position>): (k: nat)
    requires cands != []
    ensures k < |cands|
  {
    if |cands| == 1 then 0
    else
      var j := NearestIndex(m, cell, cands[..|cands| - 1]);
      if CalculateDistance(m, cell, cands[|cands| - 1]) < CalculateDistance(m, cell, cands[j]) then |cands| - 1 else j
  }

  /** The candidate the scan settles on is at minimum distance, and it is
      the first such candidate: ties keep the shipyard or the earlier
      dropoff. */
  lemma {:induction false} NearestIndexIsFirstMinimum(m: GameMap, cell: Position, cands: seq<Position>)
    requires cands != []
    ensures var k := NearestIndex(m, cell, cands);
      && (forall i :: 0 <= i < |cands| ==> CalculateDistance(m, cell, cands[k]) <= CalculateDistance(m, cell, cands[i]))
      && (forall i :: 0 <= i < k ==> CalculateDistance(m, cell, cands[k]) < CalculateDistance(m, cell, cands[i]))
  {
    if |cands| > 1 {
      var init := cands[..|cands| - 1];
      NearestIndexIsFirstMinimum(m, cell, init);
      var j := NearestIndex(m, cell, init);
      assert init[j] == cands[j];
      forall i | 0 <= i < |init|
        ensures init[i] == cands[i]
      {
      }
    }
  }

  /** The table entries for one cell: bestDropoff and bestDistance. */
  method NearestFor(m: GameMap, x: int, y: int, shipyard: Position, dropoffs: seq<Position>)
    returns (bestDropoff: Position, bestDistance: int)
    ensures var cands := [shipyard] + dropoffs;
      var k := NearestIndex(m, Position(x, y), cands);
      bestDropoff == cands[k] && bestDistance == CalculateDistance(m, Position(x, y), bestDropoff)
  {
    var cands := [shipyard] + dropoffs;
    var cell := Position(x, y);
    DistanceOverloadsAgree(m, cell, shipyard);
    bestDistance := CalculateDistanceXYPos(m, x, y, shipyard);
    bestDropoff := shipyard;
    assert cands[..1] == [shipyard];
    for i := 0 to |dropoffs|
      invariant var k := NearestIndex(m, cell, cands[..i + 1]);
        bestDropoff == cands[k] && bestDistance == CalculateDistance(m, cell, bestDropoff)
    {
      var p := dropoffs[i];
      assert cands[..i + 2][..i + 1] == cands[..i + 1] && cands[i + 1] == p;
      DistanceOverloadsAgree(m, cell, p);
      var distance := CalculateDistanceXYPos(m, x, y, p);
      if distance < bestDistance {
        bestDistance := distance;
        bestDropoff := p;
      }
    }
    assert cands[..|dropoffs| + 1] == cands;
  }

  /** The candidate the scan of lines 110-116 settles on for cell `c`. */
  function NearestCandidate(m: GameMap, c: Position, player: Player): (d: Position)
    ensures d in Candidates(player)
  {
    Candidates(player)[NearestIndex(m, c, Candidates(player))]
  }

  /** The tables the loops of lines 105-118 build for one player. */
  function NearestTable(m: GameMap, player: Player): map<Position, Position>
  {
    map c | c in Grid(m) :: NearestCandidate(m, c, player)
  }

  function DistanceTable(m: GameMap, player: Player): map<Position, int>
  {
    map c | c in Grid(m) :: CalculateDistance(m, c, NearestCandidate(m, c, player))
  }

  /** The entries of a player's two nearest-dropoff tables are right. */
  ghost predicate DropoffTablesFor(m: GameMap, player: Player, nearest: map<Position, Position>, distance: map<Position, int>)
  {
    nearest == NearestTable(m, player) && distance == DistanceTable(m, player)
  }

  /** The entry of a cell on the map. */
  lemma DropoffEntry(m: GameMap, player: Player, nearest: map<Position, Position>, distance: map<Position, int>, c: Position)
    requires DropoffTablesFor(m, player, nearest, distance) && OnMap(m, c)
    ensures c in nearest && nearest[c] == NearestCandidate(m, c, player)
    ensures c in distance && distance[c] == CalculateDistance(m, c, nearest[c])
  {
    InGrid(m, c);
  }

  /** The cell (x', y') comes before (x, y) in the row-by-row scan. */
  predicate Before(c: Position, x: int, y: int)
  {
    c.x < x || (c.x == x && c.y < y)
  }

  /** The tables hold the right entries for exactly the cells scanned so far. */
  ghost predicate FilledUpTo(m: GameMap, player: Player, nearest: map<Position, Position>, distance: map<Position, int>, x: int, y: int)
  {
    && (forall c :: c in nearest <==> OnMap(m, c) && Before(c, x, y))
    && (forall c :: c in distance <==> OnMap(m, c) && Before(c, x, y))
    && (forall c :: c in nearest ==> nearest[c] == NearestCandidate(m, c, player))
    && (forall c :: c in distance ==> distance[c] == CalculateDistance(m, c, NearestCandidate(m, c, player)))
  }

  lemma FillCell(m: GameMap, player: Player, nearest: map<Position, Position>, distance: map<Position, int>, x: int, y: int,
                 bestDropoff: Position, bestDistance: int)
    requires FilledUpTo(m, player, nearest, distance, x, y) && 0 <= x < m.height && 0 <= y < m.width
    requires bestDropoff == NearestCandidate(m, Position(x, y), player)
    requires bestDistance == CalculateDistance(m, Position(x, y), bestDropoff)
    ensures FilledUpTo(m, player, nearest[Position(x, y) := bestDropoff], distance[Position(x, y) := bestDistance], x, y + 1)
  {
    var here := Position(x, y);
    var nearest', distance' := nearest[here := bestDropoff], distance[here := bestDistance];
    forall c
      ensures c in nearest' <==> OnMap(m, c) && Before(c, x, y + 1)
      ensures c in distance' <==> OnMap(m, c) && Before(c, x, y + 1)
    {
      assert Before(c, x, y + 1) <==> Before(c, x, y) || c == here;
    }
  }

  lemma FillRow(m: GameMap, player: Player, nearest: map<Position, Position>, distance: map<Position, int>, x: int)
    requires FilledUpTo(m, player, nearest, distance, x, m.width)
    ensures FilledUpTo(m, player, nearest, distance, x + 1, 0)
  {
  }

  lemma FillAll(m: GameMap, player: Player, nearest: map<Position, Position>, distance: map<Position, int>)
    requires ValidMap(m) && FilledUpTo(m, player, nearest, distance, m.height, 0)
    ensures DropoffTablesFor(m, player, nearest, distance)
  {
    GridIsOnMap(m);
    var nt, dt := NearestTable(m, player), DistanceTable(m, player);
    assert nearest.Keys == nt.Keys;
    assert distance.Keys == dt.Keys;
    forall c | c in nearest
      ensures nearest[c] == nt[c] && distance[c] == dt[c]
    {
    }
    SameMap(nearest, nt);
    SameMap(distance, dt);
  }

  /** The loops of lines 105-118 for one player. */
  method DropoffTables(g: Game, player: Player) returns (nearest: map<Position, Position>, distance: map<Position, int>)
    requires ValidMap(g.board)
    ensures DropoffTablesFor(g.board, player, nearest, distance)
  {
    nearest, distance := map[], map[];
    for x := 0 to g.board.height
      invariant FilledUpTo(g.board, player, nearest, distance, x, 0)
    {
      for y := 0 to g.board.width
        invariant FilledUpTo(g.board, player, nearest, distance, x, y)
      {
        var bestDropoff, bestDistance := NearestFor(g.board, x, y, player.shipyard, player.dropoffs);
        FillCell(g.board, player, nearest, distance, x, y, bestDropoff, bestDistance);
        nearest := nearest[Position(x, y) := bestDropoff];
        distance := distance[Position(x, y) := bestDistance];
      }
      FillRow(g.board, player, nearest, distance, x);
    }
    FillAll(g.board, player, nearest, distance);
  }

  /** The table entry corrected by a dropoff plan (nearestDropoff and
      nearestDropoffDistance): the planned site replaces the tabled dropoff
      only when it is strictly closer. */
  function WithPlan(m: GameMap, destination: Position, dropoff: Position, distance: int, plan: Option<DropoffPlan>): (r: (Position, int))
    ensures r.1 <= distance
    ensures r.0 == dropoff || (plan.Some? && r.0 == plan.value.destination)
    ensures plan.Some? ==> r.1 <= CalculateDistance(m, destination, plan.value.destination)
    ensures r.0 != dropoff ==> r.1 < distance
  {
    if plan.Some? && CalculateDistance(m, destination, plan.value.destination) < distance then
      (plan.value.destination, CalculateDistance(m, destination, plan.value.destination))
    else (dropoff, distance)
  }

  /** With correct tables, the two queries agree: the distance returned is
      the distance to the dropoff returned, and no candidate (the shipyard,
      a dropoff, or the planned site) is closer. */
  lemma NearestDropoffIsNearest(m: GameMap, player: Player, nearest: map<Position, Position>, distance: map<Position, int>,
                                destination: Position, plan: Option<DropoffPlan>)
    requires DropoffTablesFor(m, player, nearest, distance) && OnMap(m, destination)
    ensures var r := WithPlan(m, destination, nearest[destination], distance[destination], plan);
      && r.1 == CalculateDistance(m, destination, r.0)
      && (r.0 in Candidates(player) || (plan.Some? && r.0 == plan.value.destination))
      && (forall q :: q in Candidates(player) ==> r.1 <= CalculateDistance(m, destination, q))
      && (plan.Some? ==> r.1 <= CalculateDistance(m, destination, plan.value.destination))
  {
    DropoffEntry(m, player, nearest, distance, destination);
    var cands := Candidates(player);
    NearestIndexIsFirstMinimum(m, destination, cands);
    forall q | q in cands
      ensures distance[destination] <= CalculateDistance(m, destination, q)
    {
      var i :| 0 <= i < |cands| && cands[i] == q;
    }
  }

  // ---------------------------------------------------------------------
  // Nearest enemy (updateNearestEnemyDistance, lines 160-187)

  /** Where the other players' ships stand. */
  function EnemyShipCells(g: Game): set<Position>
  {
    set i, j | 0 <= i < |g.players| && g.players[i].id != g.me.id && 0 <= j < |g.players[i].ships| :: g.players[i].ships[j].position
  }

  /** Every ship of every player stands on the map. */
  predicate ShipsOnMap(g: Game)
  {
    forall i, j :: 0 <= i < |g.players| && 0 <= j < |g.players[i].ships| ==> OnMap(g.board, g.players[i].ships[j].position)
  }

  /** Lines 164-171: the other players' ships, as the first found set. */
  method EnemyPositions(g: Game) returns (found: set<Position>)
    ensures found == EnemyShipCells(g)
  {
    found := {};
    for i := 0 to |g.players|
      invariant found == set a, b | 0 <= a < i && g.players[a].id != g.me.id && 0 <= b < |g.players[a].ships| :: g.players[a].ships[b].position
    {
      var p := g.players[i];
      if p.id == g.me.id {
        continue;
      }
      for j := 0 to |p.ships|
        invariant found == (set a, b | 0 <= a < i && g.players[a].id != g.me.id && 0 <= b < |g.players[a].ships| :: g.players[a].ships[b].position)
          + (set b | 0 <= b < j :: p.ships[b].position)
      {
        found := found + {p.ships[j].position};
      }
    }
  }

  function Near(m: GameMap, c: Position): seq<Position>
    requires ValidMap(m)
  {
    Neighbourhood(m, c, 1)
  }

  /** The table covers the map; enemy cells and unfound cells hold 0. */
  ghost predicate Tabled(m: GameMap, enemies: set<Position>, found: set<Position>, table: map<Position, int>)
  {
    && table.Keys == Grid(m) && enemies <= found
    && (forall c :: c in found ==> OnMap(m, c))
    && (forall c :: c in table && c !in found ==> table[c] == 0)
    && (forall c :: c in enemies ==> table[c] == 0)
  }

  /** Found cells other than enemy cells hold a layer between 1 and k. */
  ghost predicate Bounded(enemies: set<Position>, found: set<Position>, table: map<Position, int>, k: int)
  {
    forall c :: c in found && c !in enemies ==> c in table && 1 <= table[c] <= k
  }

  ghost predicate AtLevel(cells: set<Position>, table: map<Position, int>, k: int)
  {
    forall c :: c in cells ==> c in table && table[c] == k
  }

  /** Every found cell outside `open` has all its neighbours found, at most
      one layer further. */
  ghost predicate ClosedExcept(m: GameMap, found: set<Position>, open: set<Position>, table: map<Position, int>)
    requires ValidMap(m)
  {
    forall c, n :: c in found && c !in open && c in table && n in Near(m, c) ==> n in found && n in table && table[n] <= table[c] + 1
  }

  /** Every found cell other than an enemy cell was found from a
      neighbour one layer nearer. */
  ghost predicate Parented(m: GameMap, enemies: set<Position>, found: set<Position>, table: map<Position, int>, parent: map<Position, Position>)
    requires ValidMap(m)
  {
    forall c :: c in found && c !in enemies ==>
      c in parent && parent[c] in found && c in Near(m, parent[c]) && c in table && parent[c] in table && table[parent[c]] == table[c] - 1
  }

  /** The state of the search at the top of the outer loop. */
  ghost predicate SearchInv(m: GameMap, enemies: set<Position>, k: int, layer: set<Position>, found: set<Position>,
                            table: map<Position, int>, parent: map<Position, Position>)
    requires ValidMap(m)
  {
    && 1 <= k && layer <= found
    && (enemies == {} ==> found == {})
    && Tabled(m, enemies, found, table) && Bounded(enemies, found, table, k - 1)
    && AtLevel(layer, table, k - 1) && ClosedExcept(m, found, layer, table)
    && Parented(m, enemies, found, table, parent)
  }

  /** The state of the search inside one layer: `todo` is what is left of
      the layer, `next` the cells found so far for the next layer. */
  ghost predicate LayerInv(m: GameMap, enemies: set<Position>, k: int, layer: set<Position>, todo: set<Position>,
                           found0: set<Position>, found: set<Position>, next: set<Position>,
                           table: map<Position, int>, parent: map<Position, Position>)
    requires ValidMap(m)
  {
    && 1 <= k && todo <= layer <= found0 <= found
    && next == found - found0
    && Tabled(m, enemies, found, table) && Bounded(enemies, found, table, k)
    && AtLevel(layer, table, k - 1) && AtLevel(next, table, k)
    && ClosedExcept(m, found, todo + next, table)
    && Parented(m, enemies, found, table, parent)
  }

  /** Recording a newly found neighbour `n` of the layer cell `p`. */
  lemma RecordKeeps(m: GameMap, enemies: set<Position>, k: int, layer: set<Position>, todo: set<Position>,
                    found0: set<Position>, found: set<Position>, next: set<Position>,
                    table: map<Position, int>, parent: map<Position, Position>, p: Position, n: Position)
    requires ValidMap(m)
    requires LayerInv(m, enemies, k, layer, todo, found0, found, next, table, parent)
    requires p in todo && n in Near(m, p) && n !in found && OnMap(m, n)
    ensures LayerInv(m, enemies, k, layer, todo, found0, found + {n}, next + {n}, table[n := k], parent[n := p])
  {
    RecordTabled(m, enemies, found, table, n, k);
    RecordBounded(enemies, found, table, n, k);
    RecordLevel(layer, table, n, k - 1, k);
    RecordLevel(next, table, n, k, k);
    RecordClosed(m, found, todo + next, table, n, k);
    RecordParented(m, enemies, found, table, parent, p, n, k);
    assert (found + {n}) - found0 == next + {n};
    assert todo + (next + {n}) == (todo + next) + {n};
  }

  lemma RecordTabled(m: GameMap, enemies: set<Position>, found: set<Position>, table: map<Position, int>, n: Position, k: int)
    requires Tabled(m, enemies, found, table) && n !in found && OnMap(m, n)
    ensures Tabled(m, enemies, found + {n}, table[n := k])
  {
    InGrid(m, n);
  }

  lemma RecordBounded(enemies: set<Position>, found: set<Position>, table: map<Position, int>, n: Position, k: int)
    requires Bounded(enemies, found, table, k) && 1 <= k
    ensures Bounded(enemies, found + {n}, table[n := k], k)
  {
  }

  lemma RecordLevel(cells: set<Position>, table: map<Position, int>, n: Position, v: int, k: int)
    requires AtLevel(cells, table, v) && (n in cells ==> v == k)
    ensures AtLevel(cells, table[n := k], v)
    ensures v == k ==> AtLevel(cells + {n}, table[n := k], k)
  {
  }

  lemma RecordClosed(m: GameMap, found: set<Position>, open: set<Position>, table: map<Position, int>, n: Position, k: int)
    requires ValidMap(m) && ClosedExcept(m, found, open, table) && n !in found
    ensures ClosedExcept(m, found + {n}, open + {n}, table[n := k])
  {
  }

  lemma RecordParented(m: GameMap, enemies: set<Position>, found: set<Position>, table: map<Position, int>,
                       parent: map<Position, Position>, p: Position, n: Position, k: int)
    requires ValidMap(m) && Parented(m, enemies, found, table, parent)
    requires p in found && p in table && table[p] == k - 1 && n in Near(m, p) && n !in found && p != n
    ensures Parented(m, enemies, found + {n}, table[n := k], parent[n := p])
  {
  }

  /** Once every neighbour of `p` is found, `p` leaves the open part. */
  lemma CloseKeeps(m: GameMap, enemies: set<Position>, k: int, layer: set<Position>, todo: set<Position>,
                   found0: set<Position>, found: set<Position>, next: set<Position>,
                   table: map<Position, int>, parent: map<Position, Position>, p: Position)
    requires ValidMap(m)
    requires LayerInv(m, enemies, k, layer, todo, found0, found, next, table, parent)
    requires p in todo && AllIn(Near(m, p), found)
    ensures LayerInv(m, enemies, k, layer, todo - {p}, found0, found, next, table, parent)
  {
    assert table[p] == k - 1;
    NearBounded(m, enemies, found, table, p, k);
    CloseCell(m, found, todo + next, table, p);
    assert (todo - {p}) + next == (todo + next) - {p};
  }

  lemma NearBounded(m: GameMap, enemies: set<Position>, found: set<Position>, table: map<Position, int>, p: Position, k: int)
    requires ValidMap(m) && Tabled(m, enemies, found, table) && Bounded(enemies, found, table, k)
    requires p in table && table[p] == k - 1 && forall n :: n in Near(m, p) ==> n in found
    ensures forall n :: n in Near(m, p) ==> n in table && table[n] <= table[p] + 1
  {
  }

  lemma CloseCell(m: GameMap, found: set<Position>, open: set<Position>, table: map<Position, int>, p: Position)
    requires ValidMap(m) && ClosedExcept(m, found, open, table) && p in table
    requires forall n :: n in Near(m, p) ==> n in found && n in table && table[n] <= table[p] + 1
    ensures ClosedExcept(m, found, open - {p}, table)
  {
  }

  /** One neighbour of the layer cell `p`: skipped when already found,
      otherwise found, given the layer number and queued (lines 178-181). */
  method VisitNeighbour(m: GameMap, ghost enemies: set<Position>, k: int, ghost layer: set<Position>, ghost todo: set<Position>,
                        ghost found0: set<Position>, p: Position, nbr: Position,
                        found: set<Position>, next: set<Position>, table: map<Position, int>, ghost parent: map<Position, Position>)
    returns (found': set<Position>, next': set<Position>, table': map<Position, int>, ghost parent': map<Position, Position>)
    requires ValidMap(m)
    requires LayerInv(m, enemies, k, layer, todo, found0, found, next, table, parent)
    requires p in todo && nbr in Near(m, p) && OnMap(m, nbr)
    ensures LayerInv(m, enemies, k, layer, todo, found0, found', next', table', parent')
    ensures nbr in found' && found <= found'
  {
    if nbr in found {
      return found, next, table, parent;
    }
    RecordKeeps(m, enemies, k, layer, todo, found0, found, next, table, parent, p, nbr);
    found' := found + {nbr};
    table' := table[nbr := k];
    next' := next + {nbr};
    parent' := parent[nbr := p];
  }

  /** Expanding the layer cell `p`: lines 176-183. */
  method ExpandCell(m: GameMap, ghost enemies: set<Position>, k: int, ghost layer: set<Position>, ghost todo: set<Position>,
                    ghost found0: set<Position>, p: Position,
                    found: set<Position>, next: set<Position>, table: map<Position, int>, ghost parent: map<Position, Position>)
    returns (found': set<Position>, next': set<Position>, table': map<Position, int>, ghost parent': map<Position, Position>)
    requires ValidMap(m)
    requires LayerInv(m, enemies, k, layer, todo, found0, found, next, table, parent) && p in todo
    ensures LayerInv(m, enemies, k, layer, todo - {p}, found0, found', next', table', parent')
  {
    assert OnMap(m, p);
    var nbrs := GetNeighbourhood(m, p, 1);
    NearOnMap(m, p);
    ghost var near := Near(m, p);
    assert nbrs == near;
    found', next', table', parent' := found, next, table, parent;
    for i := 0 to |nbrs|
      invariant LayerInv(m, enemies, k, layer, todo, found0, found', next', table', parent')
      invariant AllIn(nbrs[..i], found')
    {
      ghost var before := found';
      found', next', table', parent' := VisitNeighbour(m, enemies, k, layer, todo, found0, p, nbrs[i], found', next', table', parent');
      AllInExtend(nbrs, i, before, found');
    }
    assert nbrs[..|nbrs|] == nbrs;
    CloseKeeps(m, enemies, k, layer, todo, found0, found', next', table', parent', p);
  }

  ghost predicate AllIn(s: seq<Position>, cells: set<Position>)
  {
    forall x :: x in s ==> x in cells
  }

  lemma AllInExtend(s: seq<Position>, i: int, cells: set<Position>, cells': set<Position>)
    requires 0 <= i < |s| && AllIn(s[..i], cells) && cells <= cells' && s[i] in cells'
    ensures AllIn(s[..i + 1], cells')
  {
    assert s[..i + 1] == s[..i] + [s[i]];
  }

  lemma NearOnMap(m: GameMap, p: Position)
    requires ValidMap(m) && OnMap(m, p)
    ensures forall n :: n in Near(m, p) ==> OnMap(m, n)
  {
    NeighbourhoodOneCells(m, p);
  }

  /** One pass of the outer loop over `layer`. */
  method ExpandLayer(m: GameMap, ghost enemies: set<Position>, k: int, layer: set<Position>,
                     found: set<Position>, table: map<Position, int>, ghost parent: map<Position, Position>)
    returns (found': set<Position>, next: set<Position>, table': map<Position, int>, ghost parent': map<Position, Position>)
    requires ValidMap(m)
    requires SearchInv(m, enemies, k, layer, found, table, parent)
    ensures LayerInv(m, enemies, k, layer, {}, found, found', next, table', parent')
  {
    found', next, table', parent' := found, {}, table, parent;
    var todo := layer;
    while todo != {}
      invariant LayerInv(m, enemies, k, layer, todo, found, found', next, table', parent')
      decreases |todo|
    {
      var p :| p in todo;
      found', next, table', parent' := ExpandCell(m, enemies, k, layer, todo, found, p, found', next, table', parent');
      todo := todo - {p};
    }
  }

  /** The finished layer is the start of the next one, and the measure
      drops. */
  lemma LayerFinished(m: GameMap, enemies: set<Position>, k: int, layer: set<Position>,
                      found0: set<Position>, found: set<Position>, next: set<Position>,
                      table: map<Position, int>, parent: map<Position, Position>)
    requires ValidMap(m) && layer != {} && enemies != {}
    requires LayerInv(m, enemies, k, layer, {}, found0, found, next, table, parent)
    ensures SearchInv(m, enemies, k + 1, next, found, table, parent)
    ensures |Grid(m) - found| + |next| < |Grid(m) - found0| + |layer|
  {
    assert {} + next == next;
    LayerShrinks(m, enemies, k, layer, found0, found, next, table, parent);
  }

  lemma LayerShrinks(m: GameMap, enemies: set<Position>, k: int, layer: set<Position>,
                     found0: set<Position>, found: set<Position>, next: set<Position>,
                     table: map<Position, int>, parent: map<Position, Position>)
    requires ValidMap(m) && layer != {}
    requires LayerInv(m, enemies, k, layer, {}, found0, found, next, table, parent)
    ensures |Grid(m) - found| + |next| < |Grid(m) - found0| + |layer|
  {
    FoundInGrid(m, found);
    Shrinks(m, found0, found, next);
  }

  /** What the search leaves in the table. A cell counts as reached when it
      holds an enemy ship or a positive layer. */
  ghost predicate EnemyTable(m: GameMap, enemies: set<Position>, table: map<Position, int>)
    requires ValidMap(m)
  {
    && table.Keys == Grid(m)
    && (forall c :: c in enemies ==> c in table && table[c] == 0)
    && (forall c :: c in table ==> table[c] >= 0)
    // The neighbours of a reached cell are reached, at most one layer beyond it.
    && (forall c, n :: Reached(enemies, table, c) && n in Near(m, c) ==>
          Reached(enemies, table, n) && table[n] <= table[c] + 1)
    // A cell at layer d > 0 has a reached neighbour at layer d - 1.
    && (forall c {:trigger NearerNeighbour(m, enemies, table, c)} :: c in table && table[c] > 0 ==> NearerNeighbour(m, enemies, table, c))
  }

  /** Some reached neighbour of `c` is one layer nearer the enemies. */
  ghost predicate NearerNeighbour(m: GameMap, enemies: set<Position>, table: map<Position, int>, c: Position)
    requires ValidMap(m) && c in table
  {
    exists n :: n in table && c in Near(m, n) && Reached(enemies, table, n) && table[n] == table[c] - 1
  }

  /** Following nearer neighbours from a cell of a positive layer ends at
      an enemy ship: with no enemy ship every entry keeps the initial 0. */
  lemma {:induction false} PositiveLayerHasEnemy(m: GameMap, enemies: set<Position>, table: map<Position, int>, c: Position)
    requires ValidMap(m) && EnemyTable(m, enemies, table) && c in table && table[c] > 0
    ensures enemies != {}
    decreases table[c]
  {
    assert NearerNeighbour(m, enemies, table, c);
    var n :| n in table && c in Near(m, n) && Reached(enemies, table, n) && table[n] == table[c] - 1;
    if n !in enemies {
      PositiveLayerHasEnemy(m, enemies, table, n);
    }
  }

  lemma NoEnemiesAllZero(m: GameMap, enemies: set<Position>, table: map<Position, int>)
    requires ValidMap(m) && EnemyTable(m, enemies, table) && enemies == {}
    ensures forall c :: c in table ==> table[c] == 0
  {
    forall c | c in table
      ensures table[c] == 0
    {
      if table[c] > 0 {
        PositiveLayerHasEnemy(m, enemies, table, c);
      }
    }
  }

  /** The reached cells of EnemyTable are exactly the found cells. */
  ghost predicate Reached(enemies: set<Position>, table: map<Position, int>, c: Position)
  {
    c in table && (c in enemies || table[c] > 0)
  }

  lemma ReachedIsFound(m: GameMap, enemies: set<Position>, k: int, found: set<Position>,
                       table: map<Position, int>, parent: map<Position, Position>)
    requires ValidMap(m) && SearchInv(m, enemies, k, {}, found, table, parent)
    ensures forall c :: c in table ==> (Reached(enemies, table, c) <==> c in found)
    ensures forall c :: c in table ==> table[c] >= 0
    ensures table.Keys == Grid(m) && forall c :: c in enemies ==> c in table && table[c] == 0
  {
  }

  lemma SearchClosed(m: GameMap, enemies: set<Position>, k: int, found: set<Position>,
                     table: map<Position, int>, parent: map<Position, Position>)
    requires ValidMap(m) && SearchInv(m, enemies, k, {}, found, table, parent)
    requires forall c :: c in table ==> (Reached(enemies, table, c) <==> c in found)
    ensures forall c, n :: Reached(enemies, table, c) && n in Near(m, c) ==>
              Reached(enemies, table, n) && table[n] <= table[c] + 1
  {
    forall c, n | Reached(enemies, table, c) && n in Near(m, c)
      ensures Reached(enemies, table, n) && table[n] <= table[c] + 1
    {
      assert c in found && c !in {};
      assert n in found && n in table;
    }
  }

  lemma SearchParented(m: GameMap, enemies: set<Position>, k: int, found: set<Position>,
                       table: map<Position, int>, parent: map<Position, Position>)
    requires ValidMap(m) && SearchInv(m, enemies, k, {}, found, table, parent)
    requires forall c :: c in table ==> (Reached(enemies, table, c) <==> c in found)
    ensures forall c {:trigger NearerNeighbour(m, enemies, table, c)} :: c in table && table[c] > 0 ==> NearerNeighbour(m, enemies, table, c)
  {
    forall c | c in table && table[c] > 0
      ensures NearerNeighbour(m, enemies, table, c)
    {
      assert Reached(enemies, table, c);
      assert c !in enemies;
      var n := parent[c];
      assert n in found;
      assert n in table && c in Near(m, n) && Reached(enemies, table, n);
    }
  }

  lemma SearchFinished(m: GameMap, enemies: set<Position>, k: int, found: set<Position>,
                       table: map<Position, int>, parent: map<Position, Position>)
    requires ValidMap(m) && SearchInv(m, enemies, k, {}, found, table, parent)
    ensures EnemyTable(m, enemies, table)
  {
    ReachedIsFound(m, enemies, k, found, table, parent);
    SearchClosed(m, enemies, k, found, table, parent);
    SearchParented(m, enemies, k, found, table, parent);
    EnemyTableFrom(m, enemies, table);
  }

  /** The clauses of EnemyTable, assembled. */
  lemma EnemyTableFrom(m: GameMap, enemies: set<Position>, table: map<Position, int>)
    requires ValidMap(m)
    requires table.Keys == Grid(m) && forall c :: c in enemies ==> c in table && table[c] == 0
    requires forall c :: c in table ==> table[c] >= 0
    requires forall c, n :: Reached(enemies, table, c) && n in Near(m, c) ==>
              Reached(enemies, table, n) && table[n] <= table[c] + 1
    requires forall c {:trigger NearerNeighbour(m, enemies, table, c)} :: c in table && table[c] > 0 ==> NearerNeighbour(m, enemies, table, c)
    ensures EnemyTable(m, enemies, table)
  {
  }

  /** updateNearestEnemyDistance: a breadth-first search from every enemy
      ship; each newly found cell gets the number of the layer it was found
      in, and all other cells keep the array's initial 0. */
  method NearestEnemyTable(g: Game) returns (table: map<Position, int>)
    requires ValidMap(g.board) && ShipsOnMap(g)
    ensures EnemyTable(g.board, EnemyShipCells(g), table)
  {
    var m := g.board;
    table := map c | c in Grid(m) :: 0;
    var found := EnemyPositions(g);
    ghost var enemies := found;
    var currentLayer := found;
    ghost var parent: map<Position, Position> := map[];
    var distance := 1;
    SearchStart(m, enemies, table);
    while currentLayer != {}
      invariant SearchInv(m, enemies, distance, currentLayer, found, table, parent)
      decreases |Grid(m) - found| + |currentLayer|
    {
      var nextLayer;
      found, nextLayer, table, parent := SearchRound(m, enemies, distance, currentLayer, found, table, parent);
      currentLayer := nextLayer;
      distance := distance + 1;
    }
    SearchFinished(m, enemies, distance, found, table, parent);
  }

  /** The search starts from the enemy cells, all at distance 0. */
  lemma SearchStart(m: GameMap, enemies: set<Position>, table: map<Position, int>)
    requires ValidMap(m) && (forall c :: c in enemies ==> OnMap(m, c)) && table == map c | c in Grid(m) :: 0
    ensures SearchInv(m, enemies, 1, enemies, enemies, table, map[])
  {
  }

  /** One pass of the outer while loop: the layer is expanded, and the
      search moves on to the next layer with fewer cells left unfound. */
  method SearchRound(m: GameMap, ghost enemies: set<Position>, k: int, layer: set<Position>,
                     found: set<Position>, table: map<Position, int>, ghost parent: map<Position, Position>)
    returns (found': set<Position>, next: set<Position>, table': map<Position, int>, ghost parent': map<Position, Position>)
    requires ValidMap(m) && layer != {}
    requires SearchInv(m, enemies, k, layer, found, table, parent)
    ensures SearchInv(m, enemies, k + 1, next, found', table', parent')
    ensures |Grid(m) - found'| + |next| < |Grid(m) - found| + |layer|
  {
    found', next, table', parent' := ExpandLayer(m, enemies, k, layer, found, table, parent);
    LayerFinished(m, enemies, k, layer, found, found', next, table', parent');
  }

  // ---------------------------------------------------------------------
  // isSurrounded (lines 360-370)

  /** An enemy of `player` stands on `c` or on one of its neighbours. */
  predicate EnemyWithinOne(g: Game, c: Position, player: Player)
    requires ValidMap(g.board)
  {
    HasEnemyShipOf(g, c, player) || exists n :: n in SurroundingCardinals(g.board, c) && HasEnemyShipOf(g, n, player)
  }

  /** Every neighbour of `position` (other than itself) has an enemy of
      `player` within distance one. */
  predicate Surrounded(g: Game, position: Position, player: Player)
    requires ValidMap(g.board)
  {
    forall c :: c in SurroundingCardinals(g.board, position) && c != position ==> EnemyWithinOne(g, c, player)
  }

  /** The inner loop: no enemy of `player` in the radius-one neighbourhood. */
  method NoEnemiesAround(g: Game, c: Position, player: Player) returns (noEnemies: bool)
    requires ValidMap(g.board) && OnMap(g.board, c)
    ensures noEnemies <==> !EnemyWithinOne(g, c, player)
  {
    NeighbourhoodOneCells(g.board, c);
    var nbrs := GetNeighbourhood(g.board, c, 1);
    noEnemies := true;
    for i := 0 to |nbrs|
      invariant noEnemies <==> forall j :: 0 <= j < i ==> !HasEnemyShipOf(g, nbrs[j], player)
    {
      if HasEnemyShipOf(g, nbrs[i], player) {
        noEnemies := false;
      }
    }
    assert noEnemies <==> forall n :: n in nbrs ==> !HasEnemyShipOf(g, n, player);
  }

  /** isSurrounded(game, position, p). */
  method IsSurrounded(g: Game, position: Position, p: Player) returns (surrounded: bool)
    requires ValidMap(g.board) && OnMap(g.board, position)
    ensures surrounded == Surrounded(g, position, p)
  {
    var nbrs := GetNeighbourhood(g.board, position, 1);
    NearOnMap(g.board, position);
    assert nbrs == Near(g.board, position);
    for i := 0 to |nbrs|
      invariant forall c :: c in nbrs[..i] && c != position ==> EnemyWithinOne(g, c, p)
    {
      var nbr := nbrs[i];
      assert nbrs[..i + 1] == nbrs[..i] + [nbr];
      if nbr == position {
        continue;
      }
      var noEnemies := NoEnemiesAround(g, nbr, p);
      if noEnemies {
        CardinalOfNear(g.board, position, nbr);
        return false;
      }
    }
    assert nbrs[..|nbrs|] == nbrs;
    NearCardinals(g.board, position);
    return true;
  }

  /** The cells of Near other than the centre are its cardinal neighbours. */
  lemma CardinalOfNear(m: GameMap, p: Position, n: Position)
    requires ValidMap(m) && OnMap(m, p) && n in Near(m, p) && n != p
    ensures n in SurroundingCardinals(m, p)
  {
    NeighbourhoodOneCells(m, p);
  }

  lemma NearCardinals(m: GameMap, p: Position)
    requires ValidMap(m) && OnMap(m, p)
    ensures forall n :: n in SurroundingCardinals(m, p) ==> n in Near(m, p)
  {
    NeighbourhoodOneCells(m, p);
  }

  // ---------------------------------------------------------------------
  // The keeper

  /** What updateMaps needs of a game: player ids index the per-player
      arrays, the map is square, and ships stand on it. */
  predicate Indexable(g: Game)
  {
    && ValidGame(g) && Square(g.board) && ShipsOnMap(g)
    && forall i :: 0 <= i < |g.players| ==> g.players[i].id == i
  }

  /** The table getInspirationMap builds for one player. */
  function InspirationTable(g: Game, player: Player): map<Position, bool>
    requires ValidMap(g.board)
  {
    map c | c in Grid(g.board) :: Inspired(g, player, c)
  }

  /** The inspiration table of one player is right. */
  ghost predicate InspirationFor(g: Game, player: Player, table: map<Position, bool>)
    requires ValidMap(g.board)
  {
    table == InspirationTable(g, player)
  }

  lemma AsInspirationTable(g: Game, player: Player, table: map<Position, bool>)
    requires ValidMap(g.board)
    requires forall c :: c in table <==> OnMap(g.board, c)
    requires forall c :: c in table ==> (table[c] <==> Inspired(g, player, c))
    ensures InspirationFor(g, player, table)
  {
    var it := InspirationTable(g, player);
    GridIsOnMap(g.board);
    assert table.Keys == it.Keys;
    forall c | c in table
      ensures table[c] == it[c]
    {
    }
    SameMap(table, it);
  }

  /** Two maps with the same keys and the same entries are equal. */
  lemma SameMap<K, V>(t: map<K, V>, u: map<K, V>)
    requires t.Keys == u.Keys && forall c :: c in t ==> t[c] == u[c]
    ensures t == u
  {
  }

  /** The inspiration tables of the players before index n are right. */
  ghost predicate InspirationUpTo(g: Game, n: int, inspired: map<nat, map<Position, bool>>)
    requires ValidMap(g.board) && n <= |g.players|
  {
    && (forall k :: k in inspired <==> 0 <= k < n)
    && (forall k :: 0 <= k < n ==> InspirationFor(g, g.players[k], inspired[k]))
  }

  lemma InspirationNext(g: Game, n: nat, inspired: map<nat, map<Position, bool>>, table: map<Position, bool>)
    requires ValidMap(g.board) && 0 <= n < |g.players|
    requires InspirationUpTo(g, n, inspired) && InspirationFor(g, g.players[n], table)
    ensures InspirationUpTo(g, n + 1, inspired[n := table])
  {
  }

  /** The nearest-dropoff tables of the players before index n are right. */
  ghost predicate DropoffsUpTo(g: Game, n: int, nearest: map<nat, map<Position, Position>>, distances: map<nat, map<Position, int>>)
    requires n <= |g.players|
  {
    && (forall k :: k in nearest <==> 0 <= k < n)
    && (forall k :: k in distances <==> 0 <= k < n)
    && (forall k :: 0 <= k < n ==> DropoffTablesFor(g.board, g.players[k], nearest[k], distances[k]))
  }

  lemma DropoffsNext(g: Game, n: nat, nearest: map<nat, map<Position, Position>>, distances: map<nat, map<Position, int>>,
                     near: map<Position, Position>, dist: map<Position, int>)
    requires 0 <= n < |g.players|
    requires DropoffsUpTo(g, n, nearest, distances) && DropoffTablesFor(g.board, g.players[n], near, dist)
    ensures DropoffsUpTo(g, n + 1, nearest[n := near], distances[n := dist])
  {
    var nearest': map<nat, map<Position, Position>> := nearest[n := near];
    var distances': map<nat, map<Position, int>> := distances[n := dist];
    KeysExtend(nearest, n, near, nearest');
    KeysExtend(distances, n, dist, distances');
    forall k | 0 <= k < n + 1
      ensures DropoffTablesFor(g.board, g.players[k], nearest'[k], distances'[k])
    {
      TablesAt(g, n, nearest, distances, near, dist, nearest', distances', k);
    }
  }

  /** One player's entry of the extended tables. */
  lemma TablesAt(g: Game, n: nat, nearest: map<nat, map<Position, Position>>, distances: map<nat, map<Position, int>>,
                 near: map<Position, Position>, dist: map<Position, int>,
                 nearest': map<nat, map<Position, Position>>, distances': map<nat, map<Position, int>>, k: nat)
    requires n < |g.players| && k <= n
    requires DropoffsUpTo(g, n, nearest, distances) && DropoffTablesFor(g.board, g.players[n], near, dist)
    requires nearest' == nearest[n := near] && distances' == distances[n := dist]
    ensures k in nearest' && k in distances'
    ensures DropoffTablesFor(g.board, g.players[k], nearest'[k], distances'[k])
  {
    if k < n {
      UpdateElsewhere(nearest, n, near, nearest', k);
      UpdateElsewhere(distances, n, dist, distances', k);
    }
  }

  lemma UpdateElsewhere<V>(t: map<nat, V>, n: nat, v: V, t': map<nat, V>, k: nat)
    requires t' == t[n := v] && k != n && k in t
    ensures k in t' && t'[k] == t[k]
  {
  }

  /** A table indexed by the first `n` players, extended by player `n`. */
  lemma KeysExtend<V>(t: map<nat, V>, n: nat, v: V, t': map<nat, V>)
    requires forall k :: k in t <==> 0 <= k < n
    requires t' == t[n := v]
    ensures forall k :: k in t' <==> 0 <= k < n + 1
  {
  }

  /** Every table describes the game `g`, whose turn is `turn`. */
  ghost predicate TablesFor(g: Game, turn: int, inspired: map<nat, map<Position, bool>>,
                            nearest: map<nat, map<Position, Position>>, distances: map<nat, map<Position, int>>,
                            enemy: map<Position, int>)
  {
    && Indexable(g) && turn == g.turnNumber
    && InspirationUpTo(g, |g.players|, inspired) && DropoffsUpTo(g, |g.players|, nearest, distances)
    && EnemyTable(g.board, EnemyShipCells(g), enemy)
  }

  /** The entries one query reads, when the player and the cell are known. */
  lemma TableEntries(g: Game, turn: int, inspired: map<nat, map<Position, bool>>,
                     nearest: map<nat, map<Position, Position>>, distances: map<nat, map<Position, int>>,
                     enemy: map<Position, int>, id: nat, c: Position)
    requires TablesFor(g, turn, inspired, nearest, distances, enemy)
    requires id < |g.players| && OnMap(g.board, c)
    ensures id in inspired && c in inspired[id] && (inspired[id][c] <==> Inspired(g, g.players[id], c))
    ensures id in nearest && c in nearest[id] && nearest[id][c] == NearestCandidate(g.board, c, g.players[id])
    ensures id in distances && c in distances[id]
    ensures distances[id][c] == CalculateDistance(g.board, c, NearestCandidate(g.board, c, g.players[id]))
    ensures c in enemy
  {
    InGrid(g.board, c);
  }

  /** The nearest-dropoff entries of correct tables, without the others. */
  lemma DropoffEntries(g: Game, turn: int, inspired: map<nat, map<Position, bool>>,
                       nearest: map<nat, map<Position, Position>>, distances: map<nat, map<Position, int>>,
                       enemy: map<Position, int>, id: nat, c: Position)
    requires TablesFor(g, turn, inspired, nearest, distances, enemy)
    requires id < |g.players| && OnMap(g.board, c)
    ensures id in nearest && c in nearest[id] && nearest[id][c] == NearestCandidate(g.board, c, g.players[id])
    ensures id in distances && c in distances[id]
    ensures distances[id][c] == CalculateDistance(g.board, c, NearestCandidate(g.board, c, g.players[id]))
  {
    TableEntries(g, turn, inspired, nearest, distances, enemy, id, c);
  }

  /** The lookup of nearestDropoffDistance: the tabled distance of the
      player's entry for the cell, or the distance to the planned site when
      that is smaller; nothing when the table has no entry. */
  method LookupDistance(m: GameMap, distances: map<nat, map<Position, int>>, id: nat, destination: Position,
                        plan: Option<DropoffPlan>, ghost dropoff: Position) returns (r: Option<int>)
    ensures id in distances && destination in distances[id] ==>
      r == Some(WithPlan(m, destination, dropoff, distances[id][destination], plan).1)
    ensures !(id in distances && destination in distances[id]) ==> r == None
  {
    if id in distances && destination in distances[id] {
      var bestDistance := distances[id][destination];
      if plan.Some? {
        var fakeDist := CalculateDistance(m, destination, plan.value.destination);
        return Some(if fakeDist < bestDistance then fakeDist else bestDistance);
      }
      return Some(bestDistance);
    }
    return None;
  }

  class MapStatsKeeper {
    var turnSeen: int
    var inspiredMaps: map<nat, map<Position, bool>>
    var nearestDropoff: map<nat, map<Position, Position>>
    var nearestDropoffDistance: map<nat, map<Position, int>>
    var nearestEnemyDistance: map<Position, int>
    /** The game the tables were last built from. */
    ghost var seen: Option<Game>

    /** Before the first update every table is missing; afterwards they
        describe the game last seen, whose turn is turnSeen. */
    ghost predicate Valid()
      reads this
    {
      && (seen.None? ==> turnSeen == -1 && inspiredMaps == map[] && nearestDropoff == map[]
                         && nearestDropoffDistance == map[] && nearestEnemyDistance == map[])
      && (seen.Some? ==> TablesFor(seen.value, turnSeen, inspiredMaps, nearestDropoff, nearestDropoffDistance, nearestEnemyDistance))
    }

    constructor()
      ensures Valid() && seen.None?
    {
      turnSeen := -1;
      inspiredMaps := map[];
      nearestDropoff := map[];
      nearestDropoffDistance := map[];
      nearestEnemyDistance := map[];
      seen := None;
    }

    /** updateMaps(game), its integer tables. */
    method UpdateMaps(g: Game)
      requires Indexable(g)
      modifies this
      ensures Valid() && seen == Some(g) && turnSeen == g.turnNumber
    {
      var inspired: map<nat, map<Position, bool>> := map[];
      for i := 0 to |g.players|
        invariant InspirationUpTo(g, i, inspired)
      {
        var table := GetInspirationMap(g, g.players[i]);
        AsInspirationTable(g, g.players[i], table);
        InspirationNext(g, i, inspired, table);
        inspired := inspired[g.players[i].id := table];
      }
      var nearest: map<nat, map<Position, Position>> := map[];
      var distances: map<nat, map<Position, int>> := map[];
      for i := 0 to |g.players|
        invariant DropoffsUpTo(g, i, nearest, distances)
      {
        var n, d := DropoffTables(g, g.players[i]);
        DropoffsNext(g, i, nearest, distances, n, d);
        nearest := nearest[g.players[i].id := n];
        distances := distances[g.players[i].id := d];
      }
      var enemy := NearestEnemyTable(g);
      assert TablesFor(g, g.turnNumber, inspired, nearest, distances, enemy);
      turnSeen := g.turnNumber;
      inspiredMaps := inspired;
      nearestDropoff := nearest;
      nearestDropoffDistance := distances;
      nearestEnemyDistance := enemy;
      seen := Some(g);
    }

    /** The guard `if(game.turnNumber > turnSeen) updateMaps(game)` every
        query starts with: the tables are rebuilt only for a later turn. */
    method Refresh(g: Game)
      requires Valid() && Indexable(g)
      modifies this
      ensures Valid()
      ensures old(turnSeen) < g.turnNumber ==> seen == Some(g) && turnSeen == g.turnNumber
      ensures old(turnSeen) >= g.turnNumber ==> unchanged(this)
    {
      if g.turnNumber > turnSeen {
        UpdateMaps(g);
      }
    }

    /** getInspiration(game, x, y, owner); None is the failed array access of
        an unknown owner or a cell off the map. */
    method GetInspiration(g: Game, x: int, y: int, owner: nat) returns (r: Option<bool>)
      requires Valid() && Indexable(g)
      modifies this
      ensures Valid()
      ensures old(turnSeen) < g.turnNumber ==> seen == Some(g)
      ensures seen.Some? && owner < |seen.value.players| && OnMap(seen.value.board, Position(x, y)) ==>
        r == Some(Inspired(seen.value, seen.value.players[owner], Position(x, y)))
      ensures seen.None? ==> r == None
    {
      Refresh(g);
      if seen.Some? && owner < |seen.value.players| && OnMap(seen.value.board, Position(x, y)) {
        TableEntries(seen.value, turnSeen, inspiredMaps, nearestDropoff, nearestDropoffDistance, nearestEnemyDistance, owner, Position(x, y));
      }
      if owner in inspiredMaps && Position(x, y) in inspiredMaps[owner] {
        r := Some(inspiredMaps[owner][Position(x, y)]);
      } else {
        r := None;
      }
    }

    /** nearestDropoff(destination, player, game, plan): the tabled dropoff,
        unless the planned site is strictly closer. */
    method NearestDropoff(g: Game, destination: Position, player: Player, plan: Option<DropoffPlan>) returns (r: Option<Position>)
      requires Valid() && Indexable(g)
      modifies this
      ensures Valid()
      ensures old(turnSeen) < g.turnNumber ==> seen == Some(g)
      ensures seen.Some? && player.id < |seen.value.players| && OnMap(seen.value.board, destination) ==>
        var d := NearestCandidate(seen.value.board, destination, seen.value.players[player.id]);
        r == Some(WithPlan(g.board, destination, d, CalculateDistance(seen.value.board, destination, d), plan).0)
      ensures seen.None? ==> r == None
    {
      Refresh(g);
      r := PlannedDropoff(g, destination, player.id, plan);
    }

    /** The table lookup of NearestDropoff, once the tables are current. */
    method PlannedDropoff(g: Game, destination: Position, id: nat, plan: Option<DropoffPlan>) returns (r: Option<Position>)
      requires Valid()
      ensures seen.Some? && id < |seen.value.players| && OnMap(seen.value.board, destination) ==>
        var d := NearestCandidate(seen.value.board, destination, seen.value.players[id]);
        r == Some(WithPlan(g.board, destination, d, CalculateDistance(seen.value.board, destination, d), plan).0)
      ensures seen.None? ==> r == None
    {
      if seen.Some? && id < |seen.value.players| && OnMap(seen.value.board, destination) {
        DropoffEntries(seen.value, turnSeen, inspiredMaps, nearestDropoff, nearestDropoffDistance, nearestEnemyDistance, id, destination);
      }
      if id in nearestDropoffDistance && destination in nearestDropoffDistance[id]
         && id in nearestDropoff && destination in nearestDropoff[id] {
        var bestDistance := nearestDropoffDistance[id][destination];
        ghost var planned := WithPlan(g.board, destination, nearestDropoff[id][destination], bestDistance, plan);
        if plan.Some? && CalculateDistance(g.board, destination, plan.value.destination) < bestDistance {
          assert planned.0 == plan.value.destination;
          return Some(plan.value.destination);
        }
        assert planned.0 == nearestDropoff[id][destination];
        return Some(nearestDropoff[id][destination]);
      }
      return None;
    }

    /** nearestDropoffDistance(destination, player, game, plan): the tabled
        distance, or the distance to the planned site when that is smaller. */
    method NearestDropoffDistance(g: Game, destination: Position, player: Player, plan: Option<DropoffPlan>) returns (r: Option<int>)
      requires Valid() && Indexable(g)
      modifies this
      ensures Valid()
      ensures old(turnSeen) < g.turnNumber ==> seen == Some(g)
      ensures seen.Some? && player.id < |seen.value.players| && OnMap(seen.value.board, destination) ==>
        var d := NearestCandidate(seen.value.board, destination, seen.value.players[player.id]);
        r == Some(WithPlan(g.board, destination, d, CalculateDistance(seen.value.board, destination, d), plan).1)
      ensures seen.None? ==> r == None
    {
      Refresh(g);
      r := DropoffDistanceEntry(g, destination, player, plan);
    }

    /** The lookup half of nearestDropoffDistance, once the tables are
        current: the tabled distance, or the distance to the planned site
        when that is smaller. */
    method DropoffDistanceEntry(g: Game, destination: Position, player: Player, plan: Option<DropoffPlan>) returns (r: Option<int>)
      requires Valid() && ValidMap(g.board)
      ensures seen.Some? && player.id < |seen.value.players| && OnMap(seen.value.board, destination) ==>
        var d := NearestCandidate(seen.value.board, destination, seen.value.players[player.id]);
        r == Some(WithPlan(g.board, destination, d, CalculateDistance(seen.value.board, destination, d), plan).1)
      ensures seen.None? ==> r == None
    {
      var id := player.id;
      ghost var dropoff := destination;
      if seen.Some? && id < |seen.value.players| && OnMap(seen.value.board, destination) {
        DropoffEntries(seen.value, turnSeen, inspiredMaps, nearestDropoff, nearestDropoffDistance, nearestEnemyDistance, id, destination);
        dropoff := NearestCandidate(seen.value.board, destination, seen.value.players[id]);
      }
      r := LookupDistance(g.board, nearestDropoffDistance, id, destination, plan, dropoff);
    }

    /** nearestEnemy(game, p): the cell's entry of the nearest-enemy table. */
    method NearestEnemy(g: Game, p: Position) returns (r: Option<int>)
      requires Valid() && Indexable(g)
      modifies this
      ensures Valid()
      ensures old(turnSeen) < g.turnNumber ==> seen == Some(g)
      ensures seen.Some? && OnMap(seen.value.board, p) ==> r == Some(nearestEnemyDistance[p])
      ensures seen.None? ==> r == None
    {
      Refresh(g);
      if seen.Some? && OnMap(seen.value.board, p) {
        InGrid(seen.value.board, p);
      }
      if p in nearestEnemyDistance {
        r := Some(nearestEnemyDistance[p]);
      } else {
        r := None;
      }
    }
  }
}
