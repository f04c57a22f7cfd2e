/** SafeRouteMap (bots/current_bot/returning/Returning.java, lines 45-130):
    a layered breadth-first search outward from our dropoffs that records,
    for every cell it reaches without passing an enemy ship, the number of
    steps home and the least halite lying on such a route. The shipyard
    joins the search late, at layer `shipyardQueueLength`. */
module SafeRoutes {
  import opened Wrappers
  import opened Geometry
  import opened World
  import opened CommonFunctions

  // ---------------------------------------------------------------------
  // Which cells the search may enter

  /** An enemy ship stands on `p`, and `p` is not one of our structures. */
  predicate EnemyOn(g: Game, p: Position)
  {
    HasEnemyShip(g, p) && !HasFriendlyStructure(g, p)
  }

  /** `n` is closed to safe routes: an enemy stands on it (lines 92-98) or,
      with `avoidAdjacent`, on one of its four neighbours (lines 99-108). */
  predicate Blocked(g: Game, avoidAdjacent: bool, n: Position)
    requires ValidMap(g.board)
  {
    var nbrs := SurroundingCardinals(g.board, n);
    EnemyOn(g, n) || (avoidAdjacent && (EnemyOn(g, nbrs[0]) || EnemyOn(g, nbrs[1]) || EnemyOn(g, nbrs[2]) || EnemyOn(g, nbrs[3])))
  }

  /** The enemyAdjacent flag of lines 92-108. */
  method EnemyAdjacent(g: Game, avoidAdjacent: bool, n: Position) returns (enemyAdjacent: bool)
    requires ValidMap(g.board)
    ensures enemyAdjacent == Blocked(g, avoidAdjacent, n)
  {
    enemyAdjacent := false;
    if HasEnemyShip(g, n) {
      if !HasFriendlyStructure(g, n) {
        enemyAdjacent := true;
      }
    }
    if avoidAdjacent {
      var nbrs := SurroundingCardinals(g.board, n);
      for i := 0 to 4
        invariant enemyAdjacent == (EnemyOn(g, n) || exists j :: 0 <= j < i && EnemyOn(g, nbrs[j]))
      {
        if HasFriendlyStructure(g, nbrs[i]) {
          continue;
        }
        if HasEnemyShip(g, nbrs[i]) {
          enemyAdjacent := true;
        }
      }
    }
  }

  /** Collections.min. */
  function MinOf(s: seq<int>): (r: int)
    requires s != []
    ensures r in s && forall x :: x in s ==> r <= x
  {
    if |s| == 1 then s[0]
    else
      assert s == [s[0]] + s[1..];
      var m := MinOf(s[1..]);
      if s[0] <= m then s[0] else m
  }

  /** The halite a cell inherits from its parents: their least route
      halite, or 0 for a cell without parents (line 78). */
  function LowestParent(parents: seq<int>): int
  {
    if parents == [] then 0 else MinOf(parents)
  }

  /** The first layer (lines 53-61): our dropoffs other than the shipyard,
      and the destination of a dropoff plan that is underway. */
  function RouteSources(me: Player, plan: Option<DropoffPlan>): set<Position>
  {
    (set d | d in GetDropoffPositions(me, None) && d != me.shipyard)
      + (if plan.Some? && plan.value.underway then {plan.value.destination} else {})
  }

  /** The inputs of one search. */
  datatype Routing = Routing(g: Game, plan: Option<DropoffPlan>, queue: int, avoidAdjacent: bool)
  {
    function Shipyard(): Position
    {
      g.me.shipyard
    }

    function Sources(): set<Position>
    {
      RouteSources(g.me, plan)
    }

    predicate Valid()
    {
      ValidMap(g.board) && OnMap(g.board, g.me.shipyard) && forall s :: s in Sources() ==> OnMap(g.board, s)
    }

    function Halite(p: Position): int
    {
      g.cells(p).halite
    }

    /** `c` is one of the four neighbours of `n`. */
    predicate Adjacent(n: Position, c: Position)
      requires ValidMap(g.board)
    {
      c in SurroundingCardinals(g.board, n)
    }

    predicate Barred(c: Position)
      requires ValidMap(g.board)
    {
      Blocked(g, avoidAdjacent, c)
    }
  }

  /** What the search computes, as the two dictionaries of the class. */
  datatype RouteMap = RouteMap(distances: map<Position, int>, haliteOnRoute: map<Position, int>)
  {
    /** safeDistance. */
    function SafeDistance(p: Position): Option<int>
    {
      if p in distances then Some(distances[p]) else None
    }

    /** safeDistanceHalite. */
    function SafeDistanceHalite(p: Position): Option<int>
    {
      if p in haliteOnRoute then Some(haliteOnRoute[p]) else None
    }
  }

  // ---------------------------------------------------------------------
  // The invariant of the search. `level` is the layer a cell was placed
  // in when it was first found, and `parent` the cell whose expansion
  // found it; both are bookkeeping of the proof only.

  /** The tables and sets are consistent and lie on the map. */
  ghost predicate Basic(r: Routing, layer: map<Position, seq<int>>, dist: map<Position, int>, hor: map<Position, int>,
                        found: set<Position>, level: map<Position, int>, parent: map<Position, Position>)
  {
    && (forall c :: c in found ==> OnMap(r.g.board, c))
    && (forall c :: c in layer ==> c in found)
    && (forall c :: c in dist ==> c in found && c in hor)
    && (forall c :: c in hor ==> c in dist)
    && (forall c :: c in level <==> c in found)
    && (forall c :: c in parent ==> c in found)
    && (forall c :: c in level ==> level[c] >= 0)
  }

  /** Only sources, the shipyard and open cells are ever queued. */
  ghost predicate Admitted(r: Routing, layer: map<Position, seq<int>>, dist: map<Position, int>)
    requires r.Valid()
  {
    forall p :: p in layer || p in dist ==> p in r.Sources() || p == r.Shipyard() || !r.Barred(p)
  }

  /** Sources are queued at layer 0 with no parents. */
  ghost predicate SourcesAtZero(r: Routing, layer: map<Position, seq<int>>, dist: map<Position, int>,
                                hor: map<Position, int>, level: map<Position, int>)
  {
    && (forall s :: s in r.Sources() ==> s in dist || s in layer)
    && (forall s :: s in r.Sources() && s != r.Shipyard() ==> s in level && level[s] == 0)
    && (forall s :: s in r.Sources() && s != r.Shipyard() && s in dist && s in hor ==> hor[s] == r.Halite(s))
  }

  /** Every neighbour of an expanded cell has been found, at most one layer
      further out (the shipyard apart, which may be moved back). */
  ghost predicate NeighboursFound(r: Routing, dist: map<Position, int>, found: set<Position>, level: map<Position, int>)
    requires r.Valid()
  {
    forall n, c :: n in dist && n in level && r.Adjacent(n, c) ==>
      c in found && c in level && (c != r.Shipyard() ==> level[c] <= level[n] + 1)
  }

  /** A recorded cell's route halite is at most its own halite plus that
      of any recorded neighbour one layer nearer home. */
  ghost predicate HaliteBound(r: Routing, dist: map<Position, int>, hor: map<Position, int>, level: map<Position, int>)
    requires r.Valid()
  {
    forall p, n :: p in dist && n in dist && p in level && n in level && p in hor && n in hor &&
      p != r.Shipyard() && n != r.Shipyard() && level[n] == level[p] - 1 && r.Adjacent(n, p)
      ==> hor[p] <= r.Halite(p) + hor[n]
  }

  /** Every found cell other than a source and the shipyard was found by
      expanding a recorded neighbour one layer nearer home. */
  ghost predicate Parented(r: Routing, dist: map<Position, int>, found: set<Position>, level: map<Position, int>,
                           parent: map<Position, Position>)
    requires r.Valid()
  {
    forall p :: p in found && p !in r.Sources() && p != r.Shipyard() ==>
      && p in parent && parent[p] in dist && r.Adjacent(parent[p], p)
      && (parent[p] == r.Shipyard() || (parent[p] in level && p in level && level[parent[p]] == level[p] - 1))
  }

  /** A parent halite `x` listed for `c` is the route halite of a
      neighbour recorded at distance `d`, or comes from the shipyard
      recorded at a distance before its queue, an entry rewritten when the
      shipyard joins the search. */
  ghost predicate From(r: Routing, d: int, dist: map<Position, int>, hor: map<Position, int>, c: Position, x: int)
    requires ValidMap(r.g.board)
  {
    exists n :: n in dist && n in hor && r.Adjacent(n, c) &&
      ((n == r.Shipyard() && d < r.queue) || (dist[n] == d && hor[n] == x))
  }

  /** The route halite of `p` is its own halite plus that of a recorded
      neighbour one step nearer home, unless it came from the shipyard's
      rewritten entry. */
  ghost predicate Attains(r: Routing, dist: map<Position, int>, hor: map<Position, int>, p: Position)
    requires ValidMap(r.g.board) && p in dist && p in hor
  {
    exists n :: n in dist && n in hor && r.Adjacent(n, p) &&
      ((n == r.Shipyard() && dist[p] <= r.queue) || (dist[n] == dist[p] - 1 && hor[p] == r.Halite(p) + hor[n]))
  }

  /** Where the route halites come from: the parents listed for layer `d`
      and for the next layer, the least of which each recorded cell takes. */
  ghost predicate Routes(r: Routing, d: int, layer: map<Position, seq<int>>, done: set<Position>,
                         dist: map<Position, int>, hor: map<Position, int>, next: map<Position, seq<int>>)
    requires r.Valid()
  {
    && (forall p :: p in layer && p !in r.Sources() && p != r.Shipyard() ==>
          layer[p] != [] && forall x :: x in layer[p] ==> From(r, d - 1, dist, hor, p, x))
    && (forall c :: c in next ==> c !in dist && next[c] != [] && forall x :: x in next[c] ==> From(r, d, dist, hor, c, x))
    && (forall p :: p in dist && p in hor && p !in r.Sources() && p != r.Shipyard() ==> Attains(r, dist, hor, p))
    && (r.Shipyard() in layer && r.Shipyard() !in done && r.Shipyard() in dist ==>
          d == r.queue && dist[r.Shipyard()] < d)
  }

  /** A found cell is recorded, queued, or closed. */
  ghost predicate Covered(r: Routing, layer: map<Position, seq<int>>, dist: map<Position, int>,
                          next: map<Position, seq<int>>, found: set<Position>)
    requires r.Valid()
  {
    forall c :: c in found ==> c in dist || c in layer || c in next || r.Barred(c)
  }

  /** At layer 0 no cell of the layer has parents. */
  ghost predicate StartLayer(d: int, layer: map<Position, seq<int>>)
  {
    d == 0 ==> forall p :: p in layer ==> layer[p] == []
  }

  /** A queued cell other than the shipyard lists the route halite of
      every recorded neighbour of the previous layer among its parents. */
  ghost predicate ParentsListed(r: Routing, d: int, layer: map<Position, seq<int>>, dist: map<Position, int>,
                                hor: map<Position, int>, level: map<Position, int>)
    requires r.Valid()
  {
    forall p, n :: p in layer && n in dist && n in level && n in hor && p != r.Shipyard() && n != r.Shipyard() &&
      level[n] == d - 1 && r.Adjacent(n, p)
      ==> hor[n] in layer[p]
  }

  /** The search between two layers, before layer `d` starts. */
  ghost predicate TopInv(r: Routing, d: int, layer: map<Position, seq<int>>, dist: map<Position, int>, hor: map<Position, int>,
                         found: set<Position>, level: map<Position, int>, parent: map<Position, Position>)
    requires r.Valid()
  {
    && Tables(r, layer, dist, hor, found, level, parent)
    && Admitted(r, layer, dist)
    && Covered(r, layer, dist, map[], found)
    && StartLayer(d, layer)
    && ParentsListed(r, d, layer, dist, hor, level)
    && Routes(r, d, layer, {}, dist, hor, map[])
    && (forall p :: p in layer ==> p in level && level[p] == d)
    && (forall c :: c in level ==> level[c] <= d)
    && (forall p :: p in dist ==> p in level && dist[p] == level[p] && level[p] < d)
    && (0 <= r.queue < d ==>
          (r.Shipyard() in dist && r.Shipyard() in hor && r.Shipyard() in level &&
           level[r.Shipyard()] == r.queue && hor[r.Shipyard()] == r.Halite(r.Shipyard())))
  }

  /** The layer-`d` cells of the search are recorded in turn, `done` being
      those already expanded and `next` the layer being built. */
  ghost predicate LayerInv(r: Routing, d: int, layer: map<Position, seq<int>>, done: set<Position>,
                           dist: map<Position, int>, hor: map<Position, int>, found: set<Position>,
                           next: map<Position, seq<int>>, level: map<Position, int>, parent: map<Position, Position>)
    requires r.Valid()
  {
    && Tables(r, layer, dist, hor, found, level, parent)
    && StartLayer(d, layer)
    && Layers(r, d, layer, done, dist, hor, found, next, level)
    && Routes(r, d, layer, done, dist, hor, next)
  }

  /** The parts of the invariant about the tables and the bookkeeping. */
  ghost predicate Tables(r: Routing, layer: map<Position, seq<int>>, dist: map<Position, int>, hor: map<Position, int>,
                         found: set<Position>, level: map<Position, int>, parent: map<Position, Position>)
    requires r.Valid()
  {
    && Basic(r, layer, dist, hor, found, level, parent)
    && SourcesAtZero(r, layer, dist, hor, level)
    && NeighboursFound(r, dist, found, level)
    && HaliteBound(r, dist, hor, level)
    && Parented(r, dist, found, level, parent)
  }

  /** The parts of the layer invariant about the layer and the next. */
  ghost predicate Layers(r: Routing, d: int, layer: map<Position, seq<int>>, done: set<Position>,
                         dist: map<Position, int>, hor: map<Position, int>, found: set<Position>,
                         next: map<Position, seq<int>>, level: map<Position, int>)
    requires r.Valid()
  {
    && Admitted(r, layer, dist)
    && Covered(r, layer, dist, next, found)
    && ParentsListed(r, d, layer, dist, hor, level)
    && LayerLevels(r, d, layer, done, dist, found, next, level)
    && ShipyardQueued(r, d, layer, done, dist, hor, level)
    && (forall n, c :: n in done && r.Adjacent(n, c) && c in next ==> n in hor && hor[n] in next[c])
    && (forall c :: c in next ==> !r.Barred(c))
  }

  /** Layers of the cells during layer `d`: the layer at `d`, the next at
      d + 1; a recorded cell is expanded, older, or the shipyard waiting
      to be recorded again. */
  ghost predicate LayerLevels(r: Routing, d: int, layer: map<Position, seq<int>>, done: set<Position>,
                              dist: map<Position, int>, found: set<Position>, next: map<Position, seq<int>>,
                              level: map<Position, int>)
  {
    && (forall p :: p in layer ==> p in level && level[p] == d)
    && (forall c :: c in level ==> level[c] <= d + 1)
    && (forall c :: c in next ==> c in found && c in level && level[c] == d + 1)
    && (forall p :: p in done ==> p in layer && p in dist)
    && (forall p :: p in dist ==> p in level && level[p] <= d && (p in done || level[p] < d || p == r.Shipyard()))
    && (forall p :: p in dist ==> (p == r.Shipyard() && p in layer && p !in done) || (p in level && dist[p] == level[p]))
  }

  /** The shipyard joins at layer `queue` with no parents. */
  ghost predicate ShipyardQueued(r: Routing, d: int, layer: map<Position, seq<int>>, done: set<Position>,
                                 dist: map<Position, int>, hor: map<Position, int>, level: map<Position, int>)
  {
    && (d == r.queue ==> r.Shipyard() in layer && layer[r.Shipyard()] == [] && r.Shipyard() in level && level[r.Shipyard()] == r.queue)
    && ((0 <= r.queue < d || (d == r.queue && r.Shipyard() in done)) ==>
          (r.Shipyard() in dist && r.Shipyard() in hor && r.Shipyard() in level &&
           level[r.Shipyard()] == r.queue && hor[r.Shipyard()] == r.Halite(r.Shipyard())))
  }

  // ---------------------------------------------------------------------
  // The search, one neighbour, one cell and one layer at a time

  /** One neighbour `n` of the cell being expanded (lines 83-113). */
  method VisitNeighbour(r: Routing, d: int, pos: Position, halite: int, n: Position, found: set<Position>,
                        next: map<Position, seq<int>>, ghost level: map<Position, int>, ghost parent: map<Position, Position>)
    returns (found': set<Position>, next': map<Position, seq<int>>,
             ghost level': map<Position, int>, ghost parent': map<Position, Position>)
    requires r.Valid()
    ensures n in found ==>
      (found' == found && level' == level && parent' == parent &&
       next' == (if n in next then next[n := next[n] + [halite]] else next))
    ensures n !in found ==>
      (found' == found + {n} && level' == level[n := d + 1] && parent' == parent[n := pos] &&
       next' == (if r.Barred(n) then next else next[n := [halite]]))
    ensures forall c :: c in next' && c != n ==> c in next && next'[c] == next[c]
    ensures OneStep(n, halite, next, next')
  {
    found', next', level', parent' := found, next, level, parent;
    if n in found {
      if n in next {
        next' := next[n := next[n] + [halite]];
      }
      return;
    }
    found' := found + {n};
    var enemyAdjacent := EnemyAdjacent(r.g, r.avoidAdjacent, n);
    level' := level[n := d + 1];
    parent' := parent[n := pos];
    if !enemyAdjacent {
      next' := next[n := [halite]];
    }
  }

  /** The next layer only grows: keys are kept and parent lists extended. */
  ghost predicate Extends(next: map<Position, seq<int>>, next': map<Position, seq<int>>)
  {
    forall c :: c in next ==> c in next' && next[c] <= next'[c]
  }

  lemma PrefixKeeps(a: seq<int>, b: seq<int>, x: int)
    requires a <= b && x in a
    ensures x in b
  {
    var i :| 0 <= i < |a| && a[i] == x;
    assert b[i] == x;
  }

  /** The bookkeeping only grows while the neighbours of `pos` are visited. */
  ghost predicate KeysGrown(found: set<Position>, level: map<Position, int>, parent: map<Position, Position>,
                            found': set<Position>, level': map<Position, int>, parent': map<Position, Position>)
  {
    && (forall c :: c in level' <==> c in found')
    && (forall c :: c in parent' ==> c in found')
    && (forall c :: c in found ==> c in found' && c in level && c in level' && level'[c] == level[c])
    && (forall c :: c in parent ==> c in parent' && parent'[c] == parent[c])
  }

  /** A cell found while visiting the neighbours of `pos` is one of them,
      one layer on, with `pos` as its parent, and is queued unless closed. */
  ghost predicate NewCells(r: Routing, d: int, pos: Position, found: set<Position>,
                           found': set<Position>, next': map<Position, seq<int>>, level': map<Position, int>, parent': map<Position, Position>)
    requires r.Valid()
  {
    forall c :: c in found' && c !in found ==>
      && r.Adjacent(pos, c) && OnMap(r.g.board, c) && c in level' && level'[c] == d + 1
      && c in parent' && parent'[c] == pos && (c in next' <==> !r.Barred(c))
  }

  /** The next layer holds found cells only, and gains only new ones. */
  ghost predicate NextFresh(found: set<Position>, next: map<Position, seq<int>>, found': set<Position>, next': map<Position, seq<int>>)
  {
    forall c :: c in next' ==> c in found' && (c in next || c !in found)
  }

  /** How the found set, the next layer and the bookkeeping have grown
      while the neighbours of `pos` are visited. */
  ghost predicate Grown(r: Routing, d: int, pos: Position,
                        found: set<Position>, next: map<Position, seq<int>>, level: map<Position, int>, parent: map<Position, Position>,
                        found': set<Position>, next': map<Position, seq<int>>, level': map<Position, int>, parent': map<Position, Position>)
    requires r.Valid()
  {
    && KeysGrown(found, level, parent, found', level', parent')
    && NewCells(r, d, pos, found, found', next', level', parent')
    && Extends(next, next')
    && NextFresh(found, next, found', next')
  }

  lemma GrownRefl(r: Routing, d: int, pos: Position,
                  found: set<Position>, next: map<Position, seq<int>>, level: map<Position, int>, parent: map<Position, Position>)
    requires r.Valid()
    requires forall c :: c in level <==> c in found
    requires forall c :: c in parent ==> c in found
    requires forall c :: c in next ==> c in found
    ensures Grown(r, d, pos, found, next, level, parent, found, next, level, parent)
  {
  }

  /** Visiting a neighbour found before keeps the growth facts. */
  lemma GrownStepOld(r: Routing, d: int, pos: Position, halite: int, n: Position,
                     found: set<Position>, next: map<Position, seq<int>>, level: map<Position, int>, parent: map<Position, Position>,
                     found1: set<Position>, next1: map<Position, seq<int>>, level1: map<Position, int>, parent1: map<Position, Position>,
                     next2: map<Position, seq<int>>)
    requires r.Valid() && n in found1
    requires Grown(r, d, pos, found, next, level, parent, found1, next1, level1, parent1)
    requires next2 == (if n in next1 then next1[n := next1[n] + [halite]] else next1)
    ensures Grown(r, d, pos, found, next, level, parent, found1, next2, level1, parent1)
  {
    assert next2.Keys == next1.Keys;
    ExtendsOld(next, next1, next2, n, halite);
  }

  lemma ExtendsOld(next: map<Position, seq<int>>, next1: map<Position, seq<int>>, next2: map<Position, seq<int>>, n: Position, halite: int)
    requires Extends(next, next1)
    requires next2 == (if n in next1 then next1[n := next1[n] + [halite]] else next1)
    ensures Extends(next, next2)
  {
    forall c | c in next
      ensures c in next2 && next[c] <= next2[c]
    {
      assert next1[c] <= next2[c];
    }
  }

  /** Visiting a new neighbour keeps the growth facts. */
  lemma GrownStepNew(r: Routing, d: int, pos: Position, halite: int, n: Position,
                     found: set<Position>, next: map<Position, seq<int>>, level: map<Position, int>, parent: map<Position, Position>,
                     found1: set<Position>, next1: map<Position, seq<int>>, level1: map<Position, int>, parent1: map<Position, Position>,
                     next2: map<Position, seq<int>>)
    requires r.Valid() && r.Adjacent(pos, n) && OnMap(r.g.board, n) && n !in found1
    requires Grown(r, d, pos, found, next, level, parent, found1, next1, level1, parent1)
    requires next2 == (if r.Barred(n) then next1 else next1[n := [halite]])
    ensures Grown(r, d, pos, found, next, level, parent, found1 + {n}, next2, level1[n := d + 1], parent1[n := pos])
  {
    KeysNew(found, level, parent, found1, level1, parent1, n, d + 1, pos);
    assert n !in next1;
    NewCellsNew(r, d, pos, found, found1, next1, level1, parent1, n, halite, next2);
    ExtendsNew(next, next1, next2, n, halite);
    assert n !in found;
  }

  lemma KeysNew(found: set<Position>, level: map<Position, int>, parent: map<Position, Position>,
                found1: set<Position>, level1: map<Position, int>, parent1: map<Position, Position>,
                n: Position, l: int, pos: Position)
    requires KeysGrown(found, level, parent, found1, level1, parent1) && n !in found1
    ensures KeysGrown(found, level, parent, found1 + {n}, level1[n := l], parent1[n := pos])
  {
  }

  lemma NewCellsNew(r: Routing, d: int, pos: Position, found: set<Position>,
                    found1: set<Position>, next1: map<Position, seq<int>>, level1: map<Position, int>, parent1: map<Position, Position>,
                    n: Position, halite: int, next2: map<Position, seq<int>>)
    requires r.Valid() && r.Adjacent(pos, n) && OnMap(r.g.board, n) && n !in found1 && n !in next1
    requires NewCells(r, d, pos, found, found1, next1, level1, parent1)
    requires next2 == (if r.Barred(n) then next1 else next1[n := [halite]])
    ensures NewCells(r, d, pos, found, found1 + {n}, next2, level1[n := d + 1], parent1[n := pos])
  {
  }

  lemma ExtendsNew(next: map<Position, seq<int>>, next1: map<Position, seq<int>>, next2: map<Position, seq<int>>, n: Position, halite: int)
    requires Extends(next, next1) && n !in next1
    requires next2 == next1 || next2 == next1[n := [halite]]
    ensures Extends(next, next2)
  {
  }

  /** Every parent listed after the neighbours of a cell are visited was
      listed before, or is that cell's route halite `halite` listed for
      one of its neighbours `around`. */
  ghost predicate Appended(around: seq<Position>, halite: int, next: map<Position, seq<int>>, next': map<Position, seq<int>>)
  {
    forall c, x :: Listed(next', c, x) ==> Listed(next, c, x) || (x == halite && c in around)
  }

  /** Visiting neighbour `n` changes at most its own entry: it is started
      with `halite` or has `halite` appended. */
  ghost predicate OneStep(n: Position, halite: int, next: map<Position, seq<int>>, next': map<Position, seq<int>>)
  {
    forall c :: c in next' ==>
      (c in next && next'[c] == next[c]) || (c == n && (next'[c] == [halite] || (c in next && next'[c] == next[c] + [halite])))
  }

  /** `x` is among the parents listed for `c`. */
  ghost predicate Listed(next: map<Position, seq<int>>, c: Position, x: int)
  {
    c in next && x in next[c]
  }

  lemma AppendedStep(around: seq<Position>, halite: int, n: Position,
                     next0: map<Position, seq<int>>, next: map<Position, seq<int>>, next': map<Position, seq<int>>)
    requires n in around && Appended(around, halite, next0, next) && OneStep(n, halite, next, next')
    ensures Appended(around, halite, next0, next')
  {
    forall c, x | Listed(next', c, x)
      ensures Listed(next0, c, x) || (x == halite && c in around)
    {
      if !Listed(next, c, x) {
        assert c == n && x == halite;
      }
    }
  }

  /** One turn of the loop over a cell's neighbours. */
  method VisitStep(r: Routing, d: int, pos: Position, halite: int, n: Position, ghost seen: set<Position>,
                   ghost found0: set<Position>, ghost next0: map<Position, seq<int>>,
                   ghost level0: map<Position, int>, ghost parent0: map<Position, Position>,
                   found: set<Position>, next: map<Position, seq<int>>, ghost level: map<Position, int>, ghost parent: map<Position, Position>)
    returns (found': set<Position>, next': map<Position, seq<int>>,
             ghost level': map<Position, int>, ghost parent': map<Position, Position>)
    requires r.Valid() && r.Adjacent(pos, n) && OnMap(r.g.board, n)
    requires Grown(r, d, pos, found0, next0, level0, parent0, found, next, level, parent)
    ensures Grown(r, d, pos, found0, next0, level0, parent0, found', next', level', parent')
    requires forall c :: c in seen ==> c in found && (c in next ==> halite in next[c])
    ensures forall c :: c in seen + {n} ==> c in found' && (c in next' ==> halite in next'[c])
    ensures OneStep(n, halite, next, next')
  {
    found', next', level', parent' := VisitNeighbour(r, d, pos, halite, n, found, next, level, parent);
    if n in found {
      GrownStepOld(r, d, pos, halite, n, found0, next0, level0, parent0, found, next, level, parent, next');
      ExtendsOld(next, next, next', n, halite);
    } else {
      GrownStepNew(r, d, pos, halite, n, found0, next0, level0, parent0, found, next, level, parent, next');
    }
    SeenKept(seen, n, halite, found, next, found', next');
  }

  /** The cells already visited keep their facts when another is visited. */
  lemma SeenKept(seen: set<Position>, n: Position, halite: int, found: set<Position>, next: map<Position, seq<int>>,
                 found': set<Position>, next': map<Position, seq<int>>)
    requires forall c :: c in seen ==> c in found && (c in next ==> halite in next[c])
    requires found <= found'
    requires forall c :: c in next' && c != n ==> c in next && next'[c] == next[c]
    ensures forall c :: c in seen && c != n ==> c in found' && (c in next' ==> halite in next'[c])
  {
  }

  lemma CardinalsListed(r: Routing, pos: Position)
    requires r.Valid() && OnMap(r.g.board, pos)
    ensures var nbrs := SurroundingCardinals(r.g.board, pos);
      forall j :: 0 <= j < 4 ==> r.Adjacent(pos, nbrs[j]) && OnMap(r.g.board, nbrs[j])
  {
  }

  /** The loop over a cell's neighbours (lines 82-114): a neighbour found
      before gains the cell's route halite as a parent when it is in the
      next layer; a new one is marked found and, unless it is closed,
      starts its next-layer entry with that halite. */
  method VisitCardinals(r: Routing, d: int, pos: Position, halite: int, found: set<Position>,
                        next: map<Position, seq<int>>, ghost level: map<Position, int>, ghost parent: map<Position, Position>)
    returns (found': set<Position>, next': map<Position, seq<int>>,
             ghost level': map<Position, int>, ghost parent': map<Position, Position>)
    requires r.Valid() && OnMap(r.g.board, pos)
    requires forall c :: c in level <==> c in found
    requires forall c :: c in parent ==> c in found
    requires forall c :: c in next ==> c in found
    ensures Grown(r, d, pos, found, next, level, parent, found', next', level', parent')
    ensures forall c :: r.Adjacent(pos, c) ==> c in found' && (c in next' ==> halite in next'[c])
    ensures Appended(SurroundingCardinals(r.g.board, pos), halite, next, next')
  {
    var nbrs := SurroundingCardinals(r.g.board, pos);
    CardinalsListed(r, pos);
    found', next', level', parent' := found, next, level, parent;
    GrownRefl(r, d, pos, found, next, level, parent);
    ghost var seen: set<Position> := {};
    assert seen == Firsts(nbrs, 0);
    assert Appended(nbrs, halite, next, next') by {
      forall c, x | Listed(next', c, x) ensures Listed(next, c, x) { }
    }
    for i := 0 to 4
      invariant Grown(r, d, pos, found, next, level, parent, found', next', level', parent')
      invariant forall c :: c in seen ==> c in found' && (c in next' ==> halite in next'[c])
      invariant seen == Firsts(nbrs, i)
      invariant Appended(nbrs, halite, next, next')
    {
      ghost var before := next';
      found', next', level', parent' := VisitStep(r, d, pos, halite, nbrs[i], seen, found, next, level, parent,
                                                  found', next', level', parent');
      AppendedStep(nbrs, halite, nbrs[i], next, before, next');
      FirstsStep(nbrs, i);
      seen := seen + {nbrs[i]};
    }
    FirstsAll(nbrs);
    CardinalsCovered(r, pos, halite, found', next');
  }

  /** The first `i` elements of `s`, as a set. */
  ghost function Firsts(s: seq<Position>, i: int): set<Position>
    requires 0 <= i <= |s|
  {
    set j | 0 <= j < i :: s[j]
  }

  lemma FirstsStep(s: seq<Position>, i: int)
    requires 0 <= i < |s|
    ensures Firsts(s, i + 1) == Firsts(s, i) + {s[i]}
  {
  }

  lemma FirstsAll(s: seq<Position>)
    ensures forall j :: 0 <= j < |s| ==> s[j] in Firsts(s, |s|)
  {
  }

  /** What holds of the four neighbours in turn holds of every neighbour. */
  lemma CardinalsCovered(r: Routing, pos: Position, halite: int, found: set<Position>, next: map<Position, seq<int>>)
    requires r.Valid()
    requires var nbrs := SurroundingCardinals(r.g.board, pos);
      forall j :: 0 <= j < 4 ==> nbrs[j] in found && (nbrs[j] in next ==> halite in next[nbrs[j]])
    ensures forall c :: r.Adjacent(pos, c) ==> c in found && (c in next ==> halite in next[c])
  {
  }

  /** The least parent is no more than any listed parent. */
  lemma LowestParentBound(parents: seq<int>, h: int)
    requires h in parents
    ensures LowestParent(parents) <= h
  {
  }

  // Each part of LayerInv survives the expansion of one cell `pos` of
  // layer `d`: `dist'` and `hor'` record `pos`, and the visit of its
  // neighbours took the found set and the next layer from the unprimed
  // to the primed values.

  lemma KeepBasic(r: Routing, d: int, layer: map<Position, seq<int>>, pos: Position, halite: int,
                  dist: map<Position, int>, hor: map<Position, int>, found: set<Position>, next: map<Position, seq<int>>,
                  level: map<Position, int>, parent: map<Position, Position>,
                  dist': map<Position, int>, hor': map<Position, int>, found': set<Position>, next': map<Position, seq<int>>,
                  level': map<Position, int>, parent': map<Position, Position>)
    requires r.Valid() && pos in layer && pos in level && level[pos] == d
    requires Basic(r, layer, dist, hor, found, level, parent)
    requires KeysGrown(found, level, parent, found', level', parent') && NewCells(r, d, pos, found, found', next', level', parent')
    requires dist' == dist[pos := d] && hor' == hor[pos := halite]
    ensures Basic(r, layer, dist', hor', found', level', parent')
  {
  }

  lemma KeepSources(r: Routing, d: int, layer: map<Position, seq<int>>, pos: Position, halite: int,
                    dist: map<Position, int>, hor: map<Position, int>, found: set<Position>, level: map<Position, int>,
                    dist': map<Position, int>, hor': map<Position, int>, level': map<Position, int>)
    requires r.Valid() && pos in layer && pos in level && level[pos] == d
    requires halite == LowestParent(layer[pos]) + r.Halite(pos)
    requires SourcesAtZero(r, layer, dist, hor, level) && StartLayer(d, layer)
    requires forall c :: c in level ==> c in level' && level'[c] == level[c]
    requires dist' == dist[pos := d] && hor' == hor[pos := halite]
    ensures SourcesAtZero(r, layer, dist', hor', level')
  {
  }

  lemma KeepNeighbours(r: Routing, d: int, layer: map<Position, seq<int>>, pos: Position,
                       dist: map<Position, int>, found: set<Position>, level: map<Position, int>,
                       dist': map<Position, int>, found': set<Position>, next': map<Position, seq<int>>,
                       level': map<Position, int>, parent': map<Position, Position>)
    requires r.Valid() && pos in found && pos in level && level[pos] == d
    requires NeighboursFound(r, dist, found, level)
    requires forall c :: c in dist ==> c in level
    requires forall c :: c in level ==> level[c] <= d + 1
    requires forall c :: c in level' <==> c in found'
    requires forall c :: c in found ==> c in found' && c in level && c in level' && level'[c] == level[c]
    requires NewCells(r, d, pos, found, found', next', level', parent')
    requires forall c :: r.Adjacent(pos, c) ==> c in found'
    requires dist' == dist[pos := d]
    ensures NeighboursFound(r, dist', found', level')
  {
  }

  lemma KeepHaliteBound(r: Routing, d: int, layer: map<Position, seq<int>>, pos: Position, halite: int,
                        dist: map<Position, int>, hor: map<Position, int>, level: map<Position, int>,
                        dist': map<Position, int>, hor': map<Position, int>, level': map<Position, int>)
    requires r.Valid() && pos in layer && pos in level && level[pos] == d
    requires halite == LowestParent(layer[pos]) + r.Halite(pos)
    requires HaliteBound(r, dist, hor, level) && ParentsListed(r, d, layer, dist, hor, level)
    requires forall p :: p in dist ==> p in level && level[p] <= d
    requires forall c :: c in level ==> c in level' && level'[c] == level[c]
    requires dist' == dist[pos := d] && hor' == hor[pos := halite]
    ensures HaliteBound(r, dist', hor', level')
  {
    forall n | n in dist && n in level && n in hor && pos != r.Shipyard() && n != r.Shipyard() &&
               level[n] == level[pos] - 1 && r.Adjacent(n, pos)
      ensures halite <= r.Halite(pos) + hor[n]
    {
      LowestParentBound(layer[pos], hor[n]);
    }
  }

  lemma KeepParented(r: Routing, d: int, pos: Position,
                     dist: map<Position, int>, found: set<Position>, level: map<Position, int>, parent: map<Position, Position>,
                     dist': map<Position, int>, found': set<Position>, next': map<Position, seq<int>>,
                     level': map<Position, int>, parent': map<Position, Position>)
    requires r.Valid() && pos in found && pos in level && level[pos] == d
    requires Parented(r, dist, found, level, parent)
    requires forall c :: c in level <==> c in found
    requires KeysGrown(found, level, parent, found', level', parent') && NewCells(r, d, pos, found, found', next', level', parent')
    requires dist' == dist[pos := d]
    ensures Parented(r, dist', found', level', parent')
  {
  }

  lemma KeepCovered(r: Routing, d: int, layer: map<Position, seq<int>>, pos: Position,
                    dist: map<Position, int>, found: set<Position>, next: map<Position, seq<int>>,
                    dist': map<Position, int>, found': set<Position>, next': map<Position, seq<int>>,
                    level': map<Position, int>, parent': map<Position, Position>)
    requires r.Valid()
    requires Covered(r, layer, dist, next, found)
    requires Extends(next, next') && NewCells(r, d, pos, found, found', next', level', parent')
    requires dist' == dist[pos := d]
    ensures Covered(r, layer, dist', next', found')
  {
  }

  lemma KeepListed(r: Routing, d: int, layer: map<Position, seq<int>>, pos: Position, halite: int,
                   dist: map<Position, int>, hor: map<Position, int>, level: map<Position, int>,
                   dist': map<Position, int>, hor': map<Position, int>, level': map<Position, int>)
    requires r.Valid() && pos in level && level[pos] == d
    requires ParentsListed(r, d, layer, dist, hor, level)
    requires forall c :: c in dist ==> c in level
    requires forall c :: c in level ==> c in level' && level'[c] == level[c]
    requires dist' == dist[pos := d] && hor' == hor[pos := halite]
    ensures ParentsListed(r, d, layer, dist', hor', level')
  {
  }

  lemma KeepLevels(r: Routing, d: int, layer: map<Position, seq<int>>, done: set<Position>, pos: Position,
                   dist: map<Position, int>, found: set<Position>, next: map<Position, seq<int>>, level: map<Position, int>,
                   dist': map<Position, int>, found': set<Position>, next': map<Position, seq<int>>,
                   level': map<Position, int>, parent': map<Position, Position>)
    requires r.Valid() && pos in layer && pos !in done
    requires LayerLevels(r, d, layer, done, dist, found, next, level)
    requires forall p :: p in layer || p in dist ==> p in found
    requires forall c :: c in level' <==> c in found'
    requires forall c :: c in found ==> c in found' && c in level && c in level' && level'[c] == level[c]
    requires NewCells(r, d, pos, found, found', next', level', parent') && NextFresh(found, next, found', next')
    requires dist' == dist[pos := d]
    ensures LayerLevels(r, d, layer, done + {pos}, dist', found', next', level')
  {
  }

  lemma KeepShipyard(r: Routing, d: int, layer: map<Position, seq<int>>, done: set<Position>, pos: Position, halite: int,
                     dist: map<Position, int>, hor: map<Position, int>, level: map<Position, int>,
                     dist': map<Position, int>, hor': map<Position, int>, level': map<Position, int>)
    requires r.Valid() && pos in layer && pos in level && level[pos] == d
    requires halite == LowestParent(layer[pos]) + r.Halite(pos)
    requires ShipyardQueued(r, d, layer, done, dist, hor, level)
    requires forall c :: c in level ==> c in level' && level'[c] == level[c]
    requires dist' == dist[pos := d] && hor' == hor[pos := halite]
    ensures ShipyardQueued(r, d, layer, done + {pos}, dist', hor', level')
  {
  }

  lemma KeepDoneParents(r: Routing, d: int, done: set<Position>, pos: Position, halite: int,
                        dist: map<Position, int>, hor: map<Position, int>, found: set<Position>, next: map<Position, seq<int>>,
                        level: map<Position, int>, hor': map<Position, int>, found': set<Position>, next': map<Position, seq<int>>)
    requires r.Valid() && pos !in done
    requires forall p :: p in done ==> p in dist && p in level
    requires NeighboursFound(r, dist, found, level)
    requires forall n, c :: n in done && r.Adjacent(n, c) && c in next ==> n in hor && hor[n] in next[c]
    requires Extends(next, next') && NextFresh(found, next, found', next')
    requires forall c :: r.Adjacent(pos, c) ==> c in found' && (c in next' ==> halite in next'[c])
    requires hor' == hor[pos := halite]
    ensures forall n, c :: n in done + {pos} && r.Adjacent(n, c) && c in next' ==> n in hor' && hor'[n] in next'[c]
  {
    forall n, c | n in done && r.Adjacent(n, c) && c in next'
      ensures hor[n] in next'[c]
    {
      assert c in found;
      PrefixKeeps(next[c], next'[c], hor[n]);
    }
  }

  lemma KeepOpen(r: Routing, d: int, pos: Position, found: set<Position>, next: map<Position, seq<int>>,
                 found': set<Position>, next': map<Position, seq<int>>, level': map<Position, int>, parent': map<Position, Position>)
    requires r.Valid()
    requires forall c :: c in next ==> !r.Barred(c)
    requires NewCells(r, d, pos, found, found', next', level', parent') && NextFresh(found, next, found', next')
    ensures forall c :: c in next' ==> !r.Barred(c)
  {
  }

  /** A listed parent keeps its origin when `pos` is recorded: only the
      shipyard is ever recorded twice, and then at its queue after an
      entry made earlier. */
  lemma FromKept(r: Routing, e: int, dist: map<Position, int>, hor: map<Position, int>, c: Position, x: int,
                 pos: Position, d: int, halite: int)
    requires ValidMap(r.g.board) && From(r, e, dist, hor, c, x) && e <= d
    requires pos in dist ==> pos == r.Shipyard() && d == r.queue && dist[pos] < d
    ensures From(r, e, dist[pos := d], hor[pos := halite], c, x)
  {
    var n :| n in dist && n in hor && r.Adjacent(n, c) && ((n == r.Shipyard() && e < r.queue) || (dist[n] == e && hor[n] == x));
    var dist', hor' := dist[pos := d], hor[pos := halite];
    if n == pos {
      assert n == r.Shipyard() && e < r.queue;
    }
    assert n in dist' && n in hor' && r.Adjacent(n, c) && ((n == r.Shipyard() && e < r.queue) || (dist'[n] == e && hor'[n] == x));
  }

  /** A neighbour that meets the condition witnesses Attains. */
  lemma AttainsBy(r: Routing, dist: map<Position, int>, hor: map<Position, int>, p: Position, n: Position)
    requires ValidMap(r.g.board) && p in dist && p in hor && n in dist && n in hor && r.Adjacent(n, p)
    requires (n == r.Shipyard() && dist[p] <= r.queue) || (dist[n] == dist[p] - 1 && hor[p] == r.Halite(p) + hor[n])
    ensures Attains(r, dist, hor, p)
  {
  }

  /** A cell `pos` recorded at `d` with a neighbour `n` recorded before. */
  lemma UpdatedBy(r: Routing, dist: map<Position, int>, hor: map<Position, int>, pos: Position, n: Position,
                  d: int, halite: int)
    requires ValidMap(r.g.board) && n in dist && n in hor && pos !in dist && r.Adjacent(n, pos)
    requires (n == r.Shipyard() && d - 1 < r.queue) || (dist[n] == d - 1 && halite == r.Halite(pos) + hor[n])
    ensures Attains(r, dist[pos := d], hor[pos := halite], pos)
  {
    AttainsBy(r, dist[pos := d], hor[pos := halite], pos, n);
  }

  /** A recorded cell keeps its attaining neighbour when `pos` is recorded. */
  lemma AttainsKept(r: Routing, dist: map<Position, int>, hor: map<Position, int>, p: Position, pos: Position, d: int, halite: int)
    requires ValidMap(r.g.board) && p in dist && p in hor && p != pos && Attains(r, dist, hor, p) && dist[p] <= d
    requires pos in dist ==> pos == r.Shipyard() && d == r.queue
    ensures Attains(r, dist[pos := d], hor[pos := halite], p)
  {
    var n :| n in dist && n in hor && r.Adjacent(n, p) &&
      ((n == r.Shipyard() && dist[p] <= r.queue) || (dist[n] == dist[p] - 1 && hor[p] == r.Halite(p) + hor[n]));
    KeptBy(r, dist, hor, p, pos, n, d, halite);
  }

  lemma KeptBy(r: Routing, dist: map<Position, int>, hor: map<Position, int>, p: Position, pos: Position, n: Position,
               d: int, halite: int)
    requires ValidMap(r.g.board) && p in dist && p in hor && p != pos && n in dist && n in hor && r.Adjacent(n, p)
    requires (n == r.Shipyard() && dist[p] <= r.queue) || (dist[n] == dist[p] - 1 && hor[p] == r.Halite(p) + hor[n])
    requires n == pos ==> n == r.Shipyard() && dist[p] <= r.queue
    ensures Attains(r, dist[pos := d], hor[pos := halite], p)
  {
    AttainsBy(r, dist[pos := d], hor[pos := halite], p, n);
  }

  /** The least listed parent of `pos` is attained by the neighbour it
      came from (lines 77-79). */
  lemma AttainsNew(r: Routing, d: int, parents: seq<int>, dist: map<Position, int>, hor: map<Position, int>,
                   pos: Position, halite: int)
    requires ValidMap(r.g.board) && pos !in dist
    requires parents != [] && forall x :: x in parents ==> From(r, d - 1, dist, hor, pos, x)
    requires halite == LowestParent(parents) + r.Halite(pos)
    ensures Attains(r, dist[pos := d], hor[pos := halite], pos)
  {
    var m := MinOf(parents);
    assert From(r, d - 1, dist, hor, pos, m);
    var n :| n in dist && n in hor && r.Adjacent(n, pos) && ((n == r.Shipyard() && d - 1 < r.queue) || (dist[n] == d - 1 && hor[n] == m));
    UpdatedBy(r, dist, hor, pos, n, d, halite);
  }

  /** The next layer's entries after `pos` is expanded: not recorded,
      with parents, each from a neighbour recorded at this distance. */
  lemma KeepNextRoutes(r: Routing, d: int, layer: map<Position, seq<int>>, done: set<Position>, pos: Position, halite: int,
                       dist: map<Position, int>, hor: map<Position, int>, found: set<Position>, next: map<Position, seq<int>>,
                       level: map<Position, int>, found': set<Position>, next': map<Position, seq<int>>,
                       level': map<Position, int>, parent': map<Position, Position>)
    requires r.Valid() && pos in layer && pos !in done && pos in found
    requires Routes(r, d, layer, done, dist, hor, next) && LayerLevels(r, d, layer, done, dist, found, next, level)
    requires forall c :: c in dist ==> c in found
    requires pos in dist ==> pos == r.Shipyard() && d == r.queue && dist[pos] < d
    requires Extends(next, next') && NextFresh(found, next, found', next') && NewCells(r, d, pos, found, found', next', level', parent')
    requires forall c :: r.Adjacent(pos, c) ==> c in found' && (c in next' ==> halite in next'[c])
    requires Appended(SurroundingCardinals(r.g.board, pos), halite, next, next')
    ensures forall c :: c in next' ==>
      (c !in dist[pos := d] && next'[c] != [] && forall x :: x in next'[c] ==> From(r, d, dist[pos := d], hor[pos := halite], c, x))
  {
    var dist', hor' := dist[pos := d], hor[pos := halite];
    forall c | c in next'
      ensures c !in dist' && next'[c] != [] && forall x :: x in next'[c] ==> From(r, d, dist', hor', c, x)
    {
      if c in next {
        assert next[c] != [] && next[c] <= next'[c];
      }
      forall x | x in next'[c]
        ensures From(r, d, dist', hor', c, x)
      {
        assert Listed(next', c, x);
        if Listed(next, c, x) {
          FromKept(r, d, dist, hor, c, x, pos, d, halite);
        } else {
          assert pos in dist' && pos in hor' && r.Adjacent(pos, c) && dist'[pos] == d && hor'[pos] == x;
        }
      }
    }
  }

  /** Expanding `pos` keeps the origins of the route halites. */
  lemma KeepRoutes(r: Routing, d: int, layer: map<Position, seq<int>>, done: set<Position>, pos: Position, halite: int,
                   dist: map<Position, int>, hor: map<Position, int>, found: set<Position>, next: map<Position, seq<int>>,
                   level: map<Position, int>, found': set<Position>, next': map<Position, seq<int>>,
                   level': map<Position, int>, parent': map<Position, Position>)
    requires r.Valid() && pos in layer && pos !in done
    requires halite == LowestParent(layer[pos]) + r.Halite(pos)
    requires Routes(r, d, layer, done, dist, hor, next) && LayerLevels(r, d, layer, done, dist, found, next, level)
    requires forall c :: c in dist || c in layer ==> c in found
    requires Extends(next, next') && NextFresh(found, next, found', next') && NewCells(r, d, pos, found, found', next', level', parent')
    requires forall c :: r.Adjacent(pos, c) ==> c in found' && (c in next' ==> halite in next'[c])
    requires Appended(SurroundingCardinals(r.g.board, pos), halite, next, next')
    ensures Routes(r, d, layer, done + {pos}, dist[pos := d], hor[pos := halite], next')
  {
    var dist', hor' := dist[pos := d], hor[pos := halite];
    assert pos in dist ==> pos == r.Shipyard() && d == r.queue && dist[pos] < d;
    forall p, x | p in layer && p !in r.Sources() && p != r.Shipyard() && x in layer[p]
      ensures From(r, d - 1, dist', hor', p, x)
    {
      FromKept(r, d - 1, dist, hor, p, x, pos, d, halite);
    }
    KeepNextRoutes(r, d, layer, done, pos, halite, dist, hor, found, next, level, found', next', level', parent');
    forall p | p in dist' && p in hor' && p !in r.Sources() && p != r.Shipyard()
      ensures Attains(r, dist', hor', p)
    {
      if p == pos {
        AttainsNew(r, d, layer[pos], dist, hor, pos, halite);
      } else {
        AttainsKept(r, dist, hor, p, pos, d, halite);
      }
    }
  }

  /** Expanding `pos` keeps the invariant of the layer. */
  lemma ExpandKeeps(r: Routing, d: int, layer: map<Position, seq<int>>, done: set<Position>, pos: Position, halite: int,
                    dist: map<Position, int>, hor: map<Position, int>, found: set<Position>, next: map<Position, seq<int>>,
                    level: map<Position, int>, parent: map<Position, Position>,
                    found': set<Position>, next': map<Position, seq<int>>, level': map<Position, int>, parent': map<Position, Position>)
    requires r.Valid() && LayerInv(r, d, layer, done, dist, hor, found, next, level, parent)
    requires pos in layer && pos !in done
    requires halite == LowestParent(layer[pos]) + r.Halite(pos)
    requires Grown(r, d, pos, found, next, level, parent, found', next', level', parent')
    requires forall c :: r.Adjacent(pos, c) ==> c in found' && (c in next' ==> halite in next'[c])
    requires Appended(SurroundingCardinals(r.g.board, pos), halite, next, next')
    ensures LayerInv(r, d, layer, done + {pos}, dist[pos := d], hor[pos := halite], found', next', level', parent')
  {
    ExpandKeepsTables(r, d, layer, done, pos, halite, dist, hor, found, next, level, parent, found', next', level', parent');
    ExpandKeepsLayers(r, d, layer, done, pos, halite, dist, hor, found, next, level, parent, found', next', level', parent');
    KeepRoutes(r, d, layer, done, pos, halite, dist, hor, found, next, level, found', next', level', parent');
  }

  lemma ExpandKeepsTables(r: Routing, d: int, layer: map<Position, seq<int>>, done: set<Position>, pos: Position, halite: int,
                    dist: map<Position, int>, hor: map<Position, int>, found: set<Position>, next: map<Position, seq<int>>,
                    level: map<Position, int>, parent: map<Position, Position>,
                    found': set<Position>, next': map<Position, seq<int>>, level': map<Position, int>, parent': map<Position, Position>)
    requires r.Valid() && LayerInv(r, d, layer, done, dist, hor, found, next, level, parent)
    requires pos in layer && pos !in done
    requires halite == LowestParent(layer[pos]) + r.Halite(pos)
    requires Grown(r, d, pos, found, next, level, parent, found', next', level', parent')
    requires forall c :: r.Adjacent(pos, c) ==> c in found' && (c in next' ==> halite in next'[c])
    ensures Tables(r, layer, dist[pos := d], hor[pos := halite], found', level', parent')
  {
    var dist', hor' := dist[pos := d], hor[pos := halite];
    KeepBasic(r, d, layer, pos, halite, dist, hor, found, next, level, parent, dist', hor', found', next', level', parent');
    KeepSources(r, d, layer, pos, halite, dist, hor, found, level, dist', hor', level');
    KeepNeighbours(r, d, layer, pos, dist, found, level, dist', found', next', level', parent');
    KeepHaliteBound(r, d, layer, pos, halite, dist, hor, level, dist', hor', level');
    KeepParented(r, d, pos, dist, found, level, parent, dist', found', next', level', parent');
  }

  lemma ExpandKeepsLayers(r: Routing, d: int, layer: map<Position, seq<int>>, done: set<Position>, pos: Position, halite: int,
                    dist: map<Position, int>, hor: map<Position, int>, found: set<Position>, next: map<Position, seq<int>>,
                    level: map<Position, int>, parent: map<Position, Position>,
                    found': set<Position>, next': map<Position, seq<int>>, level': map<Position, int>, parent': map<Position, Position>)
    requires r.Valid() && LayerInv(r, d, layer, done, dist, hor, found, next, level, parent)
    requires pos in layer && pos !in done
    requires halite == LowestParent(layer[pos]) + r.Halite(pos)
    requires Grown(r, d, pos, found, next, level, parent, found', next', level', parent')
    requires forall c :: r.Adjacent(pos, c) ==> c in found' && (c in next' ==> halite in next'[c])
    ensures Layers(r, d, layer, done + {pos}, dist[pos := d], hor[pos := halite], found', next', level')
  {
    var dist', hor' := dist[pos := d], hor[pos := halite];
    KeepCovered(r, d, layer, pos, dist, found, next, dist', found', next', level', parent');
    KeepListed(r, d, layer, pos, halite, dist, hor, level, dist', hor', level');
    KeepLevels(r, d, layer, done, pos, dist, found, next, level, dist', found', next', level', parent');
    KeepShipyard(r, d, layer, done, pos, halite, dist, hor, level, dist', hor', level');
    KeepDoneParents(r, d, done, pos, halite, dist, hor, found, next, level, hor', found', next');
    KeepOpen(r, d, pos, found, next, found', next', level', parent');
  }

  /** One entry of the layer (lines 74-115): record the cell at the
      current distance with its route halite, then visit its neighbours. */
  method ExpandEntry(r: Routing, d: int, layer: map<Position, seq<int>>, ghost done: set<Position>, pos: Position,
                     dist: map<Position, int>, hor: map<Position, int>, found: set<Position>,
                     next: map<Position, seq<int>>, ghost level: map<Position, int>, ghost parent: map<Position, Position>)
    returns (dist': map<Position, int>, hor': map<Position, int>, found': set<Position>,
             next': map<Position, seq<int>>, ghost level': map<Position, int>, ghost parent': map<Position, Position>)
    requires r.Valid() && LayerInv(r, d, layer, done, dist, hor, found, next, level, parent)
    requires pos in layer && pos !in done
    ensures LayerInv(r, d, layer, done + {pos}, dist', hor', found', next', level', parent')
    ensures forall c :: c in found ==> c in found'
    ensures forall c :: c in next' ==> c in next || c !in found
  {
    var parents := layer[pos];
    dist' := dist[pos := d];
    var lowestParentHalite := LowestParent(parents);
    var halite := lowestParentHalite + r.g.cells(pos).halite;
    hor' := hor[pos := halite];
    found', next', level', parent' := VisitCardinals(r, d, pos, halite, found, next, level, parent);
    ExpandKeeps(r, d, layer, done, pos, halite, dist, hor, found, next, level, parent, found', next', level', parent');
  }

  /** The loop over the entries of a layer (lines 74-115), in whatever
      order the hash map yields them. */
  method ExpandLayer(r: Routing, d: int, layer: map<Position, seq<int>>,
                     dist: map<Position, int>, hor: map<Position, int>, found: set<Position>,
                     ghost level: map<Position, int>, ghost parent: map<Position, Position>)
    returns (dist': map<Position, int>, hor': map<Position, int>, found': set<Position>,
             next: map<Position, seq<int>>, ghost level': map<Position, int>, ghost parent': map<Position, Position>)
    requires r.Valid() && LayerInv(r, d, layer, {}, dist, hor, found, map[], level, parent)
    ensures LayerInv(r, d, layer, layer.Keys, dist', hor', found', next, level', parent')
    ensures forall c :: c in found ==> c in found'
    ensures forall c :: c in next ==> c !in found
  {
    dist', hor', found', next, level', parent' := dist, hor, found, map[], level, parent;
    var todo := layer.Keys;
    ghost var done: set<Position> := {};
    while todo != {}
      invariant todo <= layer.Keys && done == layer.Keys - todo
      invariant LayerInv(r, d, layer, done, dist', hor', found', next, level', parent')
      invariant forall c :: c in found ==> c in found'
      invariant forall c :: c in next ==> c !in found
      decreases |todo|
    {
      var pos :| pos in todo;
      TakeOne(layer.Keys, todo, done, pos);
      dist', hor', found', next, level', parent' := ExpandEntry(r, d, layer, done, pos, dist', hor', found', next, level', parent');
      done := done + {pos};
      todo := todo - {pos};
    }
    assert done == layer.Keys - {};
  }

  /** Taking one entry from those still to expand. */
  lemma TakeOne(keys: set<Position>, todo: set<Position>, done: set<Position>, pos: Position)
    requires todo <= keys && done == keys - todo && pos in todo
    ensures pos in keys && pos !in done
    ensures todo - {pos} <= keys && done + {pos} == keys - (todo - {pos})
    ensures |todo - {pos}| < |todo|
  {
  }

  /** The first layer and the found set before the loop (lines 50-63). */
  lemma StartKeeps(r: Routing, layer: map<Position, seq<int>>, level: map<Position, int>)
    requires r.Valid()
    requires layer == map s | s in r.Sources() :: []
    requires level == map s | s in r.Sources() :: 0
    ensures TopInv(r, 0, layer, map[], map[], r.Sources(), level, map[])
  {
  }

  /** Lines 67-70 at distance `shipyardQueueLength`: the shipyard joins
      the layer with no parents. */
  lemma SneakKeeps(r: Routing, d: int, layer: map<Position, seq<int>>, dist: map<Position, int>, hor: map<Position, int>,
                   found: set<Position>, level: map<Position, int>, parent: map<Position, Position>)
    requires r.Valid() && 0 <= d == r.queue
    requires TopInv(r, d, layer, dist, hor, found, level, parent)
    ensures LayerInv(r, d, layer[r.Shipyard() := []], {}, dist, hor, found + {r.Shipyard()}, map[],
                     level[r.Shipyard() := d], parent)
  {
    var layer', found', level' := layer[r.Shipyard() := []], found + {r.Shipyard()}, level[r.Shipyard() := d];
    SneakTables(r, d, layer, dist, hor, found, level, parent, layer', found', level');
    SneakSources(r, d, layer, dist, hor, found, level, parent, layer', found', level');
    SneakNeighbours(r, d, layer, dist, hor, found, level, parent, layer', found', level');
    SneakHalite(r, d, layer, dist, hor, found, level, parent, layer', found', level');
    SneakParented(r, d, layer, dist, hor, found, level, parent, layer', found', level');
    SneakLevels(r, d, layer, dist, hor, found, level, parent, layer', found', level');
    SneakRoutes(r, d, layer, dist, hor, level, layer');
  }

  lemma SneakRoutes(r: Routing, d: int, layer: map<Position, seq<int>>, dist: map<Position, int>, hor: map<Position, int>,
                    level: map<Position, int>, layer': map<Position, seq<int>>)
    requires r.Valid() && 0 <= d == r.queue
    requires layer' == layer[r.Shipyard() := []]
    requires Routes(r, d, layer, {}, dist, hor, map[])
    requires forall p :: p in dist ==> p in level && dist[p] == level[p] && level[p] < d
    ensures Routes(r, d, layer', {}, dist, hor, map[])
  {
  }

  lemma SneakTables(r: Routing, d: int, layer: map<Position, seq<int>>, dist: map<Position, int>, hor: map<Position, int>,
                   found: set<Position>, level: map<Position, int>, parent: map<Position, Position>,
                   layer': map<Position, seq<int>>, found': set<Position>, level': map<Position, int>)
    requires r.Valid() && 0 <= d == r.queue
    requires layer' == layer[r.Shipyard() := []] && found' == found + {r.Shipyard()} && level' == level[r.Shipyard() := d]
    requires Basic(r, layer, dist, hor, found, level, parent) && Admitted(r, layer, dist)
    requires Covered(r, layer, dist, map[], found) && StartLayer(d, layer)
    ensures Basic(r, layer', dist, hor, found', level', parent) && Admitted(r, layer', dist)
    ensures Covered(r, layer', dist, map[], found') && StartLayer(d, layer')
  {
  }

  lemma SneakSources(r: Routing, d: int, layer: map<Position, seq<int>>, dist: map<Position, int>, hor: map<Position, int>,
                   found: set<Position>, level: map<Position, int>, parent: map<Position, Position>,
                   layer': map<Position, seq<int>>, found': set<Position>, level': map<Position, int>)
    requires r.Valid() && 0 <= d == r.queue
    requires layer' == layer[r.Shipyard() := []] && found' == found + {r.Shipyard()} && level' == level[r.Shipyard() := d]
    requires SourcesAtZero(r, layer, dist, hor, level)
    ensures SourcesAtZero(r, layer', dist, hor, level')
  {
  }

  lemma SneakNeighbours(r: Routing, d: int, layer: map<Position, seq<int>>, dist: map<Position, int>, hor: map<Position, int>,
                   found: set<Position>, level: map<Position, int>, parent: map<Position, Position>,
                   layer': map<Position, seq<int>>, found': set<Position>, level': map<Position, int>)
    requires r.Valid() && 0 <= d == r.queue
    requires layer' == layer[r.Shipyard() := []] && found' == found + {r.Shipyard()} && level' == level[r.Shipyard() := d]
    requires NeighboursFound(r, dist, found, level)
    requires forall p :: p in dist ==> p in level && level[p] < d
    ensures NeighboursFound(r, dist, found', level')
  {
  }

  lemma SneakHalite(r: Routing, d: int, layer: map<Position, seq<int>>, dist: map<Position, int>, hor: map<Position, int>,
                   found: set<Position>, level: map<Position, int>, parent: map<Position, Position>,
                   layer': map<Position, seq<int>>, found': set<Position>, level': map<Position, int>)
    requires r.Valid() && 0 <= d == r.queue
    requires layer' == layer[r.Shipyard() := []] && found' == found + {r.Shipyard()} && level' == level[r.Shipyard() := d]
    requires HaliteBound(r, dist, hor, level) && ParentsListed(r, d, layer, dist, hor, level)
    ensures HaliteBound(r, dist, hor, level') && ParentsListed(r, d, layer', dist, hor, level')
  {
  }

  lemma SneakParented(r: Routing, d: int, layer: map<Position, seq<int>>, dist: map<Position, int>, hor: map<Position, int>,
                   found: set<Position>, level: map<Position, int>, parent: map<Position, Position>,
                   layer': map<Position, seq<int>>, found': set<Position>, level': map<Position, int>)
    requires r.Valid() && 0 <= d == r.queue
    requires layer' == layer[r.Shipyard() := []] && found' == found + {r.Shipyard()} && level' == level[r.Shipyard() := d]
    requires Parented(r, dist, found, level, parent)
    ensures Parented(r, dist, found', level', parent)
  {
  }

  lemma SneakLevels(r: Routing, d: int, layer: map<Position, seq<int>>, dist: map<Position, int>, hor: map<Position, int>,
                   found: set<Position>, level: map<Position, int>, parent: map<Position, Position>,
                   layer': map<Position, seq<int>>, found': set<Position>, level': map<Position, int>)
    requires r.Valid() && 0 <= d == r.queue
    requires layer' == layer[r.Shipyard() := []] && found' == found + {r.Shipyard()} && level' == level[r.Shipyard() := d]
    requires forall p :: p in layer ==> p in level && level[p] == d
    requires forall c :: c in level ==> level[c] <= d
    requires forall p :: p in dist ==> p in level && dist[p] == level[p] && level[p] < d
    ensures LayerLevels(r, d, layer', {}, dist, found', map[], level') && ShipyardQueued(r, d, layer', {}, dist, hor, level')
  {
  }

  /** At any other distance the layer starts as it is. */
  lemma NoSneakKeeps(r: Routing, d: int, layer: map<Position, seq<int>>, dist: map<Position, int>, hor: map<Position, int>,
                     found: set<Position>, level: map<Position, int>, parent: map<Position, Position>)
    requires r.Valid() && 0 <= d != r.queue
    requires TopInv(r, d, layer, dist, hor, found, level, parent)
    ensures LayerInv(r, d, layer, {}, dist, hor, found, map[], level, parent)
  {
  }

  /** Once every entry is expanded, the next layer takes over (line 117). */
  lemma LayerDone(r: Routing, d: int, layer: map<Position, seq<int>>, dist: map<Position, int>, hor: map<Position, int>,
                  found: set<Position>, next: map<Position, seq<int>>, level: map<Position, int>, parent: map<Position, Position>)
    requires r.Valid() && 0 <= d
    requires LayerInv(r, d, layer, layer.Keys, dist, hor, found, next, level, parent)
    ensures TopInv(r, d + 1, next, dist, hor, found, level, parent)
  {
    RoutesDone(r, d, layer, dist, hor, next);
  }

  /** The next layer's parents are those of layer d + 1. */
  lemma RoutesDone(r: Routing, d: int, layer: map<Position, seq<int>>, dist: map<Position, int>, hor: map<Position, int>,
                   next: map<Position, seq<int>>)
    requires r.Valid() && Routes(r, d, layer, layer.Keys, dist, hor, next)
    ensures Routes(r, d + 1, next, {}, dist, hor, map[])
  {
  }

  /** The loop measure of lines 65-119 drops once the queue is passed. */
  lemma Progress(r: Routing, found0: set<Position>, found: set<Position>,
                 layer: map<Position, seq<int>>, next: map<Position, seq<int>>)
    requires r.Valid()
    requires found0 <= found && forall c :: c in found ==> OnMap(r.g.board, c)
    requires forall c :: c in next ==> c in found && c !in found0
    ensures layer != map[] ==> |Grid(r.g.board) - found| + |next.Keys| < |Grid(r.g.board) - found0| + |layer.Keys|
  {
    FoundInGrid(r.g.board, found);
    Shrinks(r.g.board, found0, found, next.Keys);
    if layer != map[] {
      var p :| p in layer;
      assert p in layer.Keys;
    }
  }

  // ---------------------------------------------------------------------
  // What the finished search promises

  /** Both tables hold the same cells, all on the map. */
  ghost predicate SameCells(r: Routing, routes: RouteMap)
    requires r.Valid()
  {
    && (forall p :: p in routes.distances <==> p in routes.haliteOnRoute)
    && (forall p :: p in routes.distances ==> OnMap(r.g.board, p))
  }

  /** Each source other than the shipyard is at distance 0 and carries its
      own halite only. */
  ghost predicate SourcesHome(r: Routing, routes: RouteMap)
    requires r.Valid()
  {
    forall s :: s in r.Sources() && s != r.Shipyard() ==>
      && s in routes.distances && routes.distances[s] == 0
      && s in routes.haliteOnRoute && routes.haliteOnRoute[s] == r.Halite(s)
  }

  /** A non-negative queue length puts the shipyard at that distance, with
      its own halite only. */
  ghost predicate ShipyardAtQueue(r: Routing, routes: RouteMap)
    requires r.Valid()
  {
    0 <= r.queue ==>
      && r.Shipyard() in routes.distances && routes.distances[r.Shipyard()] == r.queue
      && r.Shipyard() in routes.haliteOnRoute && routes.haliteOnRoute[r.Shipyard()] == r.Halite(r.Shipyard())
  }

  /** Every recorded cell is a source, the shipyard, or open. */
  ghost predicate OnlyOpen(r: Routing, routes: RouteMap)
    requires r.Valid()
  {
    forall p :: p in routes.distances ==> p in r.Sources() || p == r.Shipyard() || !r.Barred(p)
  }

  /** The search leaves no open neighbour of a recorded cell unrecorded. */
  ghost predicate Closed(r: Routing, routes: RouteMap)
    requires r.Valid()
  {
    forall n, c :: n in routes.distances && r.Adjacent(n, c) ==> c in routes.distances || r.Barred(c)
  }

  /** Recorded neighbours differ by at most one step, the shipyard apart. */
  ghost predicate Layered(r: Routing, routes: RouteMap)
    requires r.Valid()
  {
    forall p, n :: p in routes.distances && n in routes.distances && p != r.Shipyard() && r.Adjacent(n, p) ==>
      routes.distances[p] <= routes.distances[n] + 1
  }

  /** A recorded cell other than a source and the shipyard has a recorded
      neighbour one step nearer home, or the shipyard as a neighbour. */
  ghost predicate Reached(r: Routing, routes: RouteMap)
    requires r.Valid()
  {
    forall p :: p in routes.distances && p !in r.Sources() && p != r.Shipyard() ==>
      exists n :: n in routes.distances && r.Adjacent(n, p) &&
        (n == r.Shipyard() || routes.distances[n] == routes.distances[p] - 1)
  }

  /** The halite on a route is at most a cell's own halite plus that of any
      recorded neighbour one step nearer home (the shipyard apart). */
  ghost predicate HaliteWithin(r: Routing, routes: RouteMap)
    requires r.Valid()
  {
    forall p, n :: p in routes.distances && n in routes.distances && p in routes.haliteOnRoute && n in routes.haliteOnRoute &&
      p != r.Shipyard() && n != r.Shipyard() && routes.distances[n] == routes.distances[p] - 1 && r.Adjacent(n, p)
      ==> routes.haliteOnRoute[p] <= r.Halite(p) + routes.haliteOnRoute[n]
  }

  /** Each recorded cell other than a source and the shipyard takes the
      least route halite of its parents (lines 76-79): a recorded
      neighbour one step nearer home attains it, unless it came from the
      shipyard's entry of a distance before its queue. */
  ghost predicate Attained(r: Routing, routes: RouteMap)
    requires r.Valid()
  {
    forall p :: p in routes.distances && p in routes.haliteOnRoute && p !in r.Sources() && p != r.Shipyard() ==>
      Attains(r, routes.distances, routes.haliteOnRoute, p)
  }

  /** After the last layer the invariant yields every promise above. */
  lemma Finished(r: Routing, d: int, dist: map<Position, int>, hor: map<Position, int>,
                 found: set<Position>, level: map<Position, int>, parent: map<Position, Position>)
    requires r.Valid() && r.queue < d
    requires TopInv(r, d, map[], dist, hor, found, level, parent)
    ensures SameCells(r, RouteMap(dist, hor)) && SourcesHome(r, RouteMap(dist, hor))
    ensures ShipyardAtQueue(r, RouteMap(dist, hor)) && OnlyOpen(r, RouteMap(dist, hor))
    ensures Closed(r, RouteMap(dist, hor)) && Layered(r, RouteMap(dist, hor))
    ensures Reached(r, RouteMap(dist, hor)) && HaliteWithin(r, RouteMap(dist, hor))
    ensures Attained(r, RouteMap(dist, hor))
  {
    FinishedTables(r, d, dist, hor, found, level, parent);
    FinishedShape(r, d, dist, hor, found, level, parent);
    FinishedReached(r, d, dist, hor, found, level, parent);
  }

  lemma FinishedTables(r: Routing, d: int, dist: map<Position, int>, hor: map<Position, int>,
                       found: set<Position>, level: map<Position, int>, parent: map<Position, Position>)
    requires r.Valid() && r.queue < d
    requires TopInv(r, d, map[], dist, hor, found, level, parent)
    ensures SameCells(r, RouteMap(dist, hor)) && SourcesHome(r, RouteMap(dist, hor))
    ensures ShipyardAtQueue(r, RouteMap(dist, hor)) && OnlyOpen(r, RouteMap(dist, hor))
    ensures HaliteWithin(r, RouteMap(dist, hor)) && Attained(r, RouteMap(dist, hor))
  {
  }

  lemma FinishedShape(r: Routing, d: int, dist: map<Position, int>, hor: map<Position, int>,
                      found: set<Position>, level: map<Position, int>, parent: map<Position, Position>)
    requires r.Valid() && r.queue < d
    requires TopInv(r, d, map[], dist, hor, found, level, parent)
    ensures Closed(r, RouteMap(dist, hor)) && Layered(r, RouteMap(dist, hor))
  {
  }

  lemma FinishedReached(r: Routing, d: int, dist: map<Position, int>, hor: map<Position, int>,
                        found: set<Position>, level: map<Position, int>, parent: map<Position, Position>)
    requires r.Valid() && r.queue < d
    requires TopInv(r, d, map[], dist, hor, found, level, parent)
    ensures Reached(r, RouteMap(dist, hor))
  {
    forall p | p in dist && p !in r.Sources() && p != r.Shipyard()
      ensures exists n :: n in dist && r.Adjacent(n, p) && (n == r.Shipyard() || dist[n] == dist[p] - 1)
    {
      var n := parent[p];
      assert n in dist && r.Adjacent(n, p);
    }
  }

  /**
   * One round of the search at one distance: the shipyard is sneaked in at
   * its queue, then the layer is expanded into the next.
   */
  method Round(r: Routing, distance: int, layer: map<Position, seq<int>>, dist: map<Position, int>, hor: map<Position, int>,
               found: set<Position>, ghost level: map<Position, int>, ghost parent: map<Position, Position>)
    returns (next: map<Position, seq<int>>, dist': map<Position, int>, hor': map<Position, int>,
             found': set<Position>, ghost level': map<Position, int>, ghost parent': map<Position, Position>)
    requires r.Valid() && 0 <= distance
    requires TopInv(r, distance, layer, dist, hor, found, level, parent)
    ensures TopInv(r, distance + 1, next, dist', hor', found', level', parent')
    ensures found <= found'
    ensures layer != map[] ==> |Grid(r.g.board) - found'| + |next.Keys| < |Grid(r.g.board) - found| + |layer.Keys|
  {
    var layer0, found0 := layer, found;
    ghost var level0 := level;
    if distance == r.queue {
      SneakKeeps(r, distance, layer, dist, hor, found, level, parent);
      layer0 := layer[r.Shipyard() := []];
      found0 := found + {r.Shipyard()};
      level0 := level[r.Shipyard() := distance];
    } else {
      NoSneakKeeps(r, distance, layer, dist, hor, found, level, parent);
    }
    dist', hor', found', next, level', parent' := ExpandLayer(r, distance, layer0, dist, hor, found0, level0, parent);
    LayerDone(r, distance, layer0, dist', hor', found', next, level', parent');
    Progress(r, found, found', layer, next);
  }

  /** SafeRouteMap's constructor (lines 49-119). */
  method BuildRouteMap(r: Routing) returns (routes: RouteMap)
    requires r.Valid()
    ensures SameCells(r, routes) && SourcesHome(r, routes) && ShipyardAtQueue(r, routes)
    ensures OnlyOpen(r, routes) && Closed(r, routes) && Layered(r, routes)
    ensures Reached(r, routes) && HaliteWithin(r, routes) && Attained(r, routes)
  {
    var layer: map<Position, seq<int>> := map s | s in r.Sources() :: [];
    var found := r.Sources();
    ghost var level: map<Position, int> := map s | s in r.Sources() :: 0;
    ghost var parent: map<Position, Position> := map[];
    var dist: map<Position, int> := map[];
    var hor: map<Position, int> := map[];
    var distance := 0;
    StartKeeps(r, layer, level);
    while layer != map[] || distance <= r.queue
      invariant 0 <= distance
      invariant TopInv(r, distance, layer, dist, hor, found, level, parent)
      decreases (if distance <= r.queue then r.queue - distance + 1 else 0), |Grid(r.g.board) - found| + |layer.Keys|
    {
      layer, dist, hor, found, level, parent := Round(r, distance, layer, dist, hor, found, level, parent);
      distance := distance + 1;
    }
    Finished(r, distance, dist, hor, found, level, parent);
    routes := RouteMap(dist, hor);
  }
}
