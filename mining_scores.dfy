/** The per-ship cost field of MiningScoresFromPosition: a layered
    breadth-first relaxation from the ship's cell that records, for every
    cell it reaches, the turns needed to get there and the halite left in
    the hold on arrival, under an iteration budget; then the per-cell
    mining score, of which only the two integer early exits are modelled. */
module MiningScores {
  import opened Wrappers
  import opened Geometry
  import opened World
  import opened CommonFunctions
  import opened MoveRegistry

  /** One cell of the cost field: the source's `scored`, `turnsToReach`
      and `haliteOnReaching` arrays taken together. An unscored cell reads
      as 0 turns and 0 halite, the default of a fresh int array. */
  datatype Reach = Unscored | Reached(turns: int, halite: int)
  {
    function Turns(): int
    {
      if Reached? then turns else 0
    }

    function Halite(): int
    {
      if Reached? then halite else 0
    }
  }

  /** A score: a double that is +Infinity or finite. */
  datatype Score = Infinite | Finite(value: real)

  /** Where a relaxed neighbour goes: the next layer or the one after. */
  datatype Slot = Skipped | NextLayer | LayerAfter

  datatype Frontiers = Frontiers(next: set<Position>, plusOne: set<Position>)

  /** Why the search stopped: the frontier ran dry, the check at the top
      of the loop fired, or the check after a layer fired. */
  datatype Stop = Drained | TopCheck | AfterLayer

  // ---------------------------------------------------------------------
  // Arrivals and the order on them

  /** The update test: an arrival replaces an entry that was unscored,
      took more turns, or took as many turns with less halite. */
  predicate Improves(e: Reach, turns: int, halite: int)
  {
    e.Unscored? || turns < e.turns || (turns == e.turns && halite > e.halite)
  }

  /** `b` is at least as good as `a`: fewer turns, or as many turns with no
      less halite; anything is at least as good as an unscored entry. */
  predicate NoWorse(a: Reach, b: Reach)
  {
    a.Unscored? || (b.Reached? && (b.turns < a.turns || (b.turns == a.turns && b.halite >= a.halite)))
  }

  /** An improving arrival is strictly better: it is never the entry it
      replaces, and the entry it replaces is never at least as good. */
  lemma ImprovesIsStrict(e: Reach, turns: int, halite: int)
    requires Improves(e, turns, halite)
    ensures e != Reached(turns, halite)
    ensures NoWorse(e, Reached(turns, halite))
    ensures e.Reached? ==> !NoWorse(Reached(turns, halite), e)
  {
  }

  /** An arrival that does not improve an entry is no better than it. */
  lemma NotImprovingIsNoBetter(e: Reach, turns: int, halite: int)
    requires !Improves(e, turns, halite)
    ensures e.Reached? && NoWorse(Reached(turns, halite), e)
  {
  }

  lemma NoWorseTrans(a: Reach, b: Reach, c: Reach)
    requires NoWorse(a, b) && NoWorse(b, c)
    ensures NoWorse(a, c)
  {
  }

  /** The arrival a cell's neighbours are offered (lines 90-107): if the
      hold cannot pay the move cost the ship first stays a turn and mines,
      otherwise it pays and moves on. The stay mines with the ship's
      current cargo, not the cargo on arrival. */
  function NextArrival(c: Constants, ship: Ship, posHalite: nat, previousHalite: int, previousTurns: int): (r: (int, int))
    requires ValidConstants(c)
    ensures MoveCost(c, posHalite) <= previousHalite ==>
      r == (previousTurns + 1, previousHalite - MoveCost(c, posHalite)) && r.1 <= previousHalite
    ensures MoveCost(c, posHalite) > previousHalite ==>
      var mined := MineAmount(c, ship.halite, posHalite);
      && r == (previousTurns + 2, previousHalite + mined - (posHalite - mined) / c.moveCostRatio)
      && r.1 <= previousHalite + mined && ship.halite + mined <= c.maxHalite
  {
    var oneStepCost := posHalite / c.moveCostRatio;
    if oneStepCost > previousHalite then
      var mined := MineAmountForShip(c, ship, posHalite);
      DivBounds(posHalite - mined, c.moveCostRatio);
      (previousTurns + 2, previousHalite + mined - (posHalite - mined) / c.moveCostRatio)
    else
      (previousTurns + 1, previousHalite - oneStepCost)
  }

  /** A full ship on an empty hold path mines nothing while it stays, so
      the cargo it is credited with on arrival can fall below zero. */
  lemma FullShipArrivesInDebt()
    ensures var c := Constants(1000, 4, 10, 4, 2, 2.0, 400, 4000);
      NextArrival(c, Ship(0, 0, Position(0, 0), 1000), 1000, 0, 5) == (7, -100)
  {
    var c := Constants(1000, 4, 10, 4, 2, 2.0, 400, 4000);
    assert MineAmount(c, 1000, 1000) == 0;
  }

  // ---------------------------------------------------------------------
  // The state of the search

  predicate Shaped(g: Game, reach: array2<Reach>)
  {
    reach.Length0 == g.board.height && reach.Length1 == g.board.width
  }

  /** What holds of the field while layer `layer` is expanded: the start
      cell keeps 0 turns and the ship's cargo; every scored cell takes
      between 0 and layer + 2 turns; and every scored cell other than the
      start passed canVisitFuture for some turn count. */
  ghost predicate Sound(g: Game, ship: Ship, reach: array2<Reach>, layer: int)
    reads reach
  {
    && Shaped(g, reach)
    && OnMap(g.board, ship.position)
    && reach[ship.position.x, ship.position.y] == Reached(0, ship.halite)
    && (forall x, y :: 0 <= x < reach.Length0 && 0 <= y < reach.Length1 && reach[x, y].Reached? ==>
          0 <= reach[x, y].turns <= layer + 2)
    && (forall x, y ::
          (0 <= x < reach.Length0 && 0 <= y < reach.Length1 && reach[x, y].Reached? && Position(x, y) != ship.position) ==>
          exists t :: g.canVisitFutureAt(Position(x, y), ship.halite, t))
  }

  /** Every entry is at least as good as it was in `before`. */
  ghost predicate Improved(before: seq<seq<Reach>>, reach: array2<Reach>)
    reads reach
  {
    && |before| == reach.Length0
    && (forall x :: 0 <= x < |before| ==> |before[x]| == reach.Length1)
    && forall x, y :: 0 <= x < reach.Length0 && 0 <= y < reach.Length1 ==> NoWorse(before[x][y], reach[x, y])
  }

  /** The contents of a field, as a value. */
  ghost function Snapshot(reach: array2<Reach>): (s: seq<seq<Reach>>)
    reads reach
    ensures |s| == reach.Length0
    ensures forall x :: 0 <= x < reach.Length0 ==> |s[x]| == reach.Length1
    ensures forall x, y :: 0 <= x < reach.Length0 && 0 <= y < reach.Length1 ==> s[x][y] == reach[x, y]
  {
    seq(reach.Length0, x requires 0 <= x < reach.Length0 reads reach =>
      seq(reach.Length1, y requires 0 <= y < reach.Length1 reads reach => reach[x, y]))
  }

  lemma ImprovedRefl(reach: array2<Reach>, before: seq<seq<Reach>>)
    requires before == Snapshot(reach)
    ensures Improved(before, reach)
  {
  }

  /** A field as a value, with the map's shape. */
  ghost predicate Fits(g: Game, s: seq<seq<Reach>>)
  {
    |s| == g.board.height && forall x :: 0 <= x < |s| ==> |s[x]| == g.board.width
  }

  ghost predicate SameShape(a: seq<seq<Reach>>, b: seq<seq<Reach>>)
  {
    |a| == |b| && forall x :: 0 <= x < |a| ==> |a[x]| == |b[x]|
  }

  /** Every entry of `b` is at least as good as the same entry of `a`. */
  ghost predicate Better(a: seq<seq<Reach>>, b: seq<seq<Reach>>)
  {
    SameShape(a, b)
    && forall x, y :: 0 <= x < |a| && 0 <= y < |a[x]| ==> NoWorse(a[x][y], b[x][y])
  }

  /** The entries `a` reached in at most `layer` turns are untouched in `b`. */
  ghost predicate Frozen(a: seq<seq<Reach>>, b: seq<seq<Reach>>, layer: int)
  {
    SameShape(a, b)
    && forall x, y :: 0 <= x < |a| && 0 <= y < |a[x]| && a[x][y].Reached? && a[x][y].turns <= layer ==>
         b[x][y] == a[x][y]
  }

  /** Every entry that changed from `a` to `b` is in one of the frontiers. */
  ghost predicate Tracked(a: seq<seq<Reach>>, b: seq<seq<Reach>>, fs: Frontiers)
  {
    SameShape(a, b)
    && forall x, y :: 0 <= x < |a| && 0 <= y < |a[x]| && b[x][y] != a[x][y] ==>
         Position(x, y) in fs.next || Position(x, y) in fs.plusOne
  }

  /** Every cell of `ps` is on the map and reached in at most `k` turns. */
  ghost predicate Bounded(g: Game, s: seq<seq<Reach>>, ps: set<Position>, k: int)
    requires Fits(g, s)
  {
    forall p :: p in ps ==> OnMap(g.board, p) && s[p.x][p.y].Reached? && s[p.x][p.y].turns <= k
  }

  /** The arrival a cell with entry e offers its neighbours. */
  function Offer(g: Game, ship: Ship, pos: Position, e: Reach): Reach
    requires ValidConstants(g.consts)
  {
    var a := NextArrival(g.consts, ship, g.cells(pos).halite, e.Halite(), e.Turns());
    Reached(a.0, a.1)
  }

  /** Every cell of `cells` that canVisitFuture admits after `turns` turns
      is at least as good as `arrival`. */
  ghost predicate OfferedOver(g: Game, ship: Ship, s: seq<seq<Reach>>, turns: int, arrival: Reach, cells: seq<Position>)
    requires Fits(g, s)
  {
    forall q :: q in cells && OnMap(g.board, q) && g.canVisitFutureAt(q, ship.halite, turns) ==> NoWorse(arrival, s[q.x][q.y])
  }

  /** The cell pos is relaxed: no neighbour of it would improve on the
      arrival it offers, so expanding it again changes nothing. */
  ghost predicate Settled(g: Game, ship: Ship, s: seq<seq<Reach>>, pos: Position)
    requires Square(g.board) && ValidConstants(g.consts) && Fits(g, s) && OnMap(g.board, pos)
  {
    var e := s[pos.x][pos.y];
    OfferedOver(g, ship, s, e.Turns(), Offer(g, ship, pos, e), Neighbourhood(g.board, pos, 1))
  }

  /** The field is closed under relaxation: every reached cell is settled. */
  ghost predicate Closed(g: Game, ship: Ship, s: seq<seq<Reach>>)
    requires Square(g.board) && ValidConstants(g.consts) && Fits(g, s)
  {
    forall x, y :: 0 <= x < g.board.height && 0 <= y < g.board.width && s[x][y].Reached? ==>
      Settled(g, ship, s, Position(x, y))
  }

  /** What the search knows at the top of layer `layer`: every reached
      cell is waiting in the current layer or the next, or has been
      expanded (it took at most `layer` turns and is settled). */
  ghost predicate Frontier(g: Game, ship: Ship, s: seq<seq<Reach>>, layer: int, positions: set<Position>, next: set<Position>)
    requires Square(g.board) && ValidConstants(g.consts) && Fits(g, s)
  {
    forall x, y :: 0 <= x < g.board.height && 0 <= y < g.board.width && s[x][y].Reached? ==>
      Position(x, y) in positions || Position(x, y) in next
      || (s[x][y].turns <= layer && Settled(g, ship, s, Position(x, y)))
  }

  lemma ImprovedBetter(before: seq<seq<Reach>>, reach: array2<Reach>)
    requires Improved(before, reach)
    ensures Better(before, Snapshot(reach))
  {
  }

  lemma BetterTrans(a: seq<seq<Reach>>, b: seq<seq<Reach>>, c: seq<seq<Reach>>)
    requires Better(a, b) && Better(b, c)
    ensures Better(a, c)
  {
    forall x, y | 0 <= x < |a| && 0 <= y < |a[x]|
      ensures NoWorse(a[x][y], c[x][y])
    {
      NoWorseTrans(a[x][y], b[x][y], c[x][y]);
    }
  }

  lemma FrozenTrans(a: seq<seq<Reach>>, b: seq<seq<Reach>>, c: seq<seq<Reach>>, layer: int)
    requires Frozen(a, b, layer) && Frozen(b, c, layer)
    ensures Frozen(a, c, layer)
  {
  }

  lemma TrackedTrans(a: seq<seq<Reach>>, b: seq<seq<Reach>>, c: seq<seq<Reach>>, f1: Frontiers, f2: Frontiers, f: Frontiers)
    requires Tracked(a, b, f1) && Tracked(b, c, f2)
    requires f1.next + f2.next <= f.next && f1.plusOne + f2.plusOne <= f.plusOne
    ensures Tracked(a, c, f)
  {
  }

  lemma BoundedKept(g: Game, a: seq<seq<Reach>>, b: seq<seq<Reach>>, ps: set<Position>, k: int)
    requires Fits(g, a) && Fits(g, b) && Better(a, b) && Bounded(g, a, ps, k)
    ensures Bounded(g, b, ps, k)
  {
  }

  lemma BoundedAdd(g: Game, s: seq<seq<Reach>>, ps: set<Position>, p: Position, k: int)
    requires Fits(g, s) && Bounded(g, s, ps, k) && OnMap(g.board, p) && s[p.x][p.y].Reached? && s[p.x][p.y].turns <= k
    ensures Bounded(g, s, ps + {p}, k)
  {
  }

  lemma OfferedOverPrefix(g: Game, ship: Ship, s: seq<seq<Reach>>, turns: int, arrival: Reach, cells: seq<Position>, i: int)
    requires Fits(g, s) && 0 <= i < |cells| && OfferedOver(g, ship, s, turns, arrival, cells[..i])
    requires OnMap(g.board, cells[i]) && g.canVisitFutureAt(cells[i], ship.halite, turns) ==> NoWorse(arrival, s[cells[i].x][cells[i].y])
    ensures OfferedOver(g, ship, s, turns, arrival, cells[..i + 1])
  {
    assert cells[..i + 1] == cells[..i] + [cells[i]];
  }

  lemma OfferedOverKept(g: Game, ship: Ship, a: seq<seq<Reach>>, b: seq<seq<Reach>>, turns: int, arrival: Reach, cells: seq<Position>)
    requires Fits(g, a) && Fits(g, b) && Better(a, b)
    requires OfferedOver(g, ship, a, turns, arrival, cells)
    ensures OfferedOver(g, ship, b, turns, arrival, cells)
  {
    forall q | q in cells && OnMap(g.board, q) && g.canVisitFutureAt(q, ship.halite, turns)
      ensures NoWorse(arrival, b[q.x][q.y])
    {
      NoWorseTrans(arrival, a[q.x][q.y], b[q.x][q.y]);
    }
  }

  /** A settled cell whose own entry is untouched stays settled while the
      rest of the field improves. */
  lemma SettledKept(g: Game, ship: Ship, a: seq<seq<Reach>>, b: seq<seq<Reach>>, pos: Position)
    requires Square(g.board) && ValidConstants(g.consts) && Fits(g, a) && Fits(g, b) && OnMap(g.board, pos)
    requires Better(a, b) && b[pos.x][pos.y] == a[pos.x][pos.y] && Settled(g, ship, a, pos)
    ensures Settled(g, ship, b, pos)
  {
    var e := a[pos.x][pos.y];
    OfferedOverKept(g, ship, a, b, e.Turns(), Offer(g, ship, pos, e), Neighbourhood(g.board, pos, 1));
  }

  lemma BetterImproved(before: seq<seq<Reach>>, reach: array2<Reach>)
    requires Better(before, Snapshot(reach))
    ensures Improved(before, reach)
  {
  }

  /** What holds part-way through a layer that started from `before`: the
      field only improved, entries of at most `layer` turns are untouched,
      every change is in the frontiers `fs`, the frontiers and the layer
      are reached within their turn counts, and the cells expanded so far
      (`done`) are settled. */
  ghost predicate LayerProgress(g: Game, ship: Ship, before: seq<seq<Reach>>, s: seq<seq<Reach>>, layer: int,
                                positions: set<Position>, done: set<Position>, next: set<Position>, fs: Frontiers)
    requires Square(g.board) && ValidConstants(g.consts) && Fits(g, s)
  {
    && Better(before, s) && Frozen(before, s, layer) && Tracked(before, s, fs) && next <= fs.next
    && Bounded(g, s, fs.next, layer + 1) && Bounded(g, s, fs.plusOne, layer + 2) && Bounded(g, s, positions, layer)
    && done <= positions && (forall p :: p in done ==> Settled(g, ship, s, p))
  }

  /** Expanding one more cell of the layer keeps the progress: the cells
      expanded before stay settled because their entries are frozen, and
      `pos` joins them. */
  lemma LayerProgressStep(g: Game, ship: Ship, before: seq<seq<Reach>>, a: seq<seq<Reach>>, b: seq<seq<Reach>>, layer: int,
                          positions: set<Position>, done: set<Position>, next: set<Position>, fs: Frontiers,
                          pos: Position, fs': Frontiers)
    requires Square(g.board) && ValidConstants(g.consts) && Fits(g, a) && Fits(g, b)
    requires LayerProgress(g, ship, before, a, layer, positions, done, next, fs)
    requires Better(a, b) && Frozen(a, b, layer) && Tracked(a, b, fs')
    requires fs.next <= fs'.next && fs.plusOne <= fs'.plusOne
    requires Bounded(g, b, fs'.next, layer + 1) && Bounded(g, b, fs'.plusOne, layer + 2)
    requires pos in positions && OnMap(g.board, pos) && Settled(g, ship, b, pos)
    ensures LayerProgress(g, ship, before, b, layer, positions, done + {pos}, next, fs')
  {
    BetterTrans(before, a, b);
    FrozenTrans(before, a, b, layer);
    TrackedTrans(before, a, b, fs, fs', fs');
    BoundedKept(g, a, b, positions, layer);
    forall p | p in done
      ensures Settled(g, ship, b, p)
    {
      SettledKept(g, ship, a, b, p);
    }
  }

  /** One successful layer keeps the frontier invariant: the expanded cells
      are settled and join the expanded ones, the cells that changed are in
      the new frontiers, and the expanded cells stay settled because their
      entries are frozen. */
  lemma {:induction false} LayerClosed(g: Game, ship: Ship, a: seq<seq<Reach>>, b: seq<seq<Reach>>, layer: int,
                                       positions: set<Position>, next: set<Position>, fs: Frontiers)
    requires Square(g.board) && ValidConstants(g.consts) && Fits(g, a) && Fits(g, b)
    requires Frontier(g, ship, a, layer, positions, next) && Bounded(g, a, positions, layer)
    requires Better(a, b) && Frozen(a, b, layer) && Tracked(a, b, fs) && next <= fs.next
    requires forall p :: p in positions ==> Settled(g, ship, b, p)
    ensures Frontier(g, ship, b, layer + 1, fs.next, fs.plusOne)
  {
    forall x, y | 0 <= x < g.board.height && 0 <= y < g.board.width && b[x][y].Reached?
      ensures Position(x, y) in fs.next || Position(x, y) in fs.plusOne
        || (b[x][y].turns <= layer + 1 && Settled(g, ship, b, Position(x, y)))
    {
      var p := Position(x, y);
      if b[x][y] == a[x][y] && p !in positions && p !in next {
        SettledKept(g, ship, a, b, p);
      }
    }
  }

  // ---------------------------------------------------------------------
  // The relaxation, one neighbour, one cell and one layer at a time

  /** One neighbour (lines 109-133): skipped unless canVisitFuture holds
      for it with the ship's cargo and the turns of the cell being
      expanded; overwritten exactly when the arrival improves it; a relaxed
      neighbour must land in the next layer or the one after, any other
      turn count is an error (the entry is written first). */
  method Relax(g: Game, ship: Ship, reach: array2<Reach>, nbr: Position, previousTurns: int,
               nextTurns: int, nextHalite: int, layer: int) returns (r: Result<Slot>)
    requires Shaped(g, reach) && OnMap(g.board, nbr)
    modifies reach
    ensures var visitable := g.canVisitFutureAt(nbr, ship.halite, previousTurns);
      var relaxed := visitable && Improves(old(reach[nbr.x, nbr.y]), nextTurns, nextHalite);
      && reach[nbr.x, nbr.y] == (if relaxed then Reached(nextTurns, nextHalite) else old(reach[nbr.x, nbr.y]))
      && (r.Err? <==> relaxed && nextTurns != layer + 1 && nextTurns != layer + 2)
      && (r == Ok(NextLayer) <==> relaxed && nextTurns == layer + 1)
      && (r == Ok(LayerAfter) <==> relaxed && nextTurns == layer + 2)
    ensures r.Err? ==> r.failure == LayerInconsistency
    ensures forall x, y :: 0 <= x < reach.Length0 && 0 <= y < reach.Length1 && Position(x, y) != nbr ==>
      reach[x, y] == old(reach[x, y])
  {
    if !g.canVisitFutureAt(nbr, ship.halite, previousTurns) {
      return Ok(Skipped);
    }
    if Improves(reach[nbr.x, nbr.y], nextTurns, nextHalite) {
      reach[nbr.x, nbr.y] := Reached(nextTurns, nextHalite);
      if nextTurns == layer + 1 {
        r := Ok(NextLayer);
      } else if nextTurns == layer + 2 {
        r := Ok(LayerAfter);
      } else {
        r := Err(LayerInconsistency);
      }
    } else {
      r := Ok(Skipped);
    }
  }

  /** Relax one neighbour of an expanded cell, keeping the field sound
      and no worse than it was before the cell's expansion began. On
      success only the neighbour can change, only to the arrival, and only
      when it lands in the next layer or the one after; an entry that took
      at most `layer` turns is never improved by such an arrival. */
  method RelaxKeeping(g: Game, ship: Ship, reach: array2<Reach>, layer: int, nbr: Position,
                      previousTurns: int, nextTurns: int, nextHalite: int, ghost before: seq<seq<Reach>>)
    returns (slot: Result<Slot>)
    requires OnMap(g.board, nbr) && 0 < nextTurns
    requires Sound(g, ship, reach, layer) && Improved(before, reach)
    modifies reach
    ensures slot.Err? ==> slot.failure == LayerInconsistency
    ensures slot.Ok? ==> Sound(g, ship, reach, layer) && Improved(before, reach)
    ensures slot == Ok(NextLayer) || slot == Ok(LayerAfter) ==> reach[nbr.x, nbr.y] != old(reach[nbr.x, nbr.y])
    ensures slot == Ok(NextLayer) ==> reach[nbr.x, nbr.y] == Reached(layer + 1, nextHalite)
    ensures slot == Ok(LayerAfter) ==> reach[nbr.x, nbr.y] == Reached(layer + 2, nextHalite)
    ensures slot.Ok? ==> Better(old(Snapshot(reach)), Snapshot(reach)) && Frozen(old(Snapshot(reach)), Snapshot(reach), layer)
    ensures slot.Ok? ==> Tracked(old(Snapshot(reach)), Snapshot(reach),
      Frontiers(if slot == Ok(NextLayer) then {nbr} else {}, if slot == Ok(LayerAfter) then {nbr} else {}))
    ensures slot.Ok? && g.canVisitFutureAt(nbr, ship.halite, previousTurns) ==>
      NoWorse(Reached(nextTurns, nextHalite), reach[nbr.x, nbr.y])
  {
    ghost var mid := Snapshot(reach);
    slot := Relax(g, ship, reach, nbr, previousTurns, nextTurns, nextHalite, layer);
    if slot.Ok? {
      if reach[nbr.x, nbr.y] != mid[nbr.x][nbr.y] {
        ImprovesIsStrict(mid[nbr.x][nbr.y], nextTurns, nextHalite);
        forall x, y | 0 <= x < reach.Length0 && 0 <= y < reach.Length1
          ensures NoWorse(before[x][y], reach[x, y])
        {
          NoWorseTrans(before[x][y], mid[x][y], reach[x, y]);
        }
      } else if g.canVisitFutureAt(nbr, ship.halite, previousTurns) {
        NotImprovingIsNoBetter(mid[nbr.x][nbr.y], nextTurns, nextHalite);
      }
    }
  }

  /** The neighbour loop of an expanded cell (lines 109-134) over `cells`:
      each is offered Reached(nextTurns, nextHalite). On success each cell
      canVisitFuture admits is at least as good as that offer, every change
      is recorded in the frontiers, and entries of at most `layer` turns are
      untouched. */
  method RelaxAll(g: Game, ship: Ship, reach: array2<Reach>, layer: int, previousTurns: int,
                  nextTurns: int, nextHalite: int, cells: seq<Position>, fs: Frontiers)
    returns (r: Result<Frontiers>)
    requires (forall q :: q in cells ==> OnMap(g.board, q)) && 0 < nextTurns
    requires Sound(g, ship, reach, layer)
    requires Bounded(g, Snapshot(reach), fs.next, layer + 1) && Bounded(g, Snapshot(reach), fs.plusOne, layer + 2)
    modifies reach
    ensures r.Err? ==> r.failure == LayerInconsistency
    ensures r.Ok? ==> Sound(g, ship, reach, layer) && Improved(old(Snapshot(reach)), reach)
    ensures r.Ok? ==> fs.next <= r.value.next && fs.plusOne <= r.value.plusOne
    ensures r.Ok? ==> Bounded(g, Snapshot(reach), r.value.next, layer + 1) && Bounded(g, Snapshot(reach), r.value.plusOne, layer + 2)
    ensures r.Ok? ==> Frozen(old(Snapshot(reach)), Snapshot(reach), layer) && Tracked(old(Snapshot(reach)), Snapshot(reach), r.value)
    ensures r.Ok? ==> Sound(g, ship, reach, layer) && OfferedOver(g, ship, Snapshot(reach), previousTurns, Reached(nextTurns, nextHalite), cells)
  {
    ghost var before := Snapshot(reach);
    var next, plusOne := fs.next, fs.plusOne;
    ImprovedRefl(reach, before);
    for i := 0 to |cells|
      invariant Sound(g, ship, reach, layer) && Improved(before, reach)
      invariant fs.next <= next && fs.plusOne <= plusOne
      invariant Bounded(g, Snapshot(reach), next, layer + 1) && Bounded(g, Snapshot(reach), plusOne, layer + 2)
      invariant Frozen(before, Snapshot(reach), layer) && Tracked(before, Snapshot(reach), Frontiers(next, plusOne))
      invariant OfferedOver(g, ship, Snapshot(reach), previousTurns, Reached(nextTurns, nextHalite), cells[..i])
    {
      var nbr := cells[i];
      ghost var mid := Snapshot(reach);
      ghost var f0 := Frontiers(next, plusOne);
      var slot := RelaxKeeping(g, ship, reach, layer, nbr, previousTurns, nextTurns, nextHalite, before);
      if slot.Err? {
        return Err(slot.failure);
      }
      ghost var now := Snapshot(reach);
      ghost var step := Frontiers(if slot == Ok(NextLayer) then {nbr} else {}, if slot == Ok(LayerAfter) then {nbr} else {});
      FrozenTrans(before, mid, now, layer);
      BoundedKept(g, mid, now, next, layer + 1);
      BoundedKept(g, mid, now, plusOne, layer + 2);
      OfferedOverKept(g, ship, mid, now, previousTurns, Reached(nextTurns, nextHalite), cells[..i]);
      OfferedOverPrefix(g, ship, now, previousTurns, Reached(nextTurns, nextHalite), cells, i);
      if slot.value == NextLayer {
        BoundedAdd(g, now, next, nbr, layer + 1);
        next := next + {nbr};
      } else if slot.value == LayerAfter {
        BoundedAdd(g, now, plusOne, nbr, layer + 2);
        plusOne := plusOne + {nbr};
      }
      TrackedTrans(before, mid, now, f0, step, Frontiers(next, plusOne));
    }
    assert cells[..|cells|] == cells;
    r := Ok(Frontiers(next, plusOne));
  }

  /** Expanding one cell of the current layer (lines 89-134): compute the
      arrival its neighbours are offered and relax each of them, including
      the cell itself, in getNeighbourhood order. The cell took at most
      `layer` turns, so its own entry is untouched and it ends settled. */
  method ExpandCell(g: Game, ship: Ship, reach: array2<Reach>, layer: int, pos: Position, fs: Frontiers)
    returns (r: Result<Frontiers>)
    requires Square(g.board) && ValidConstants(g.consts) && OnMap(g.board, pos)
    requires Sound(g, ship, reach, layer) && reach[pos.x, pos.y].Reached? && reach[pos.x, pos.y].turns <= layer
    requires Bounded(g, Snapshot(reach), fs.next, layer + 1) && Bounded(g, Snapshot(reach), fs.plusOne, layer + 2)
    modifies reach
    ensures r.Err? ==> r.failure == LayerInconsistency
    ensures r.Ok? ==> Sound(g, ship, reach, layer) && Improved(old(Snapshot(reach)), reach)
    ensures r.Ok? ==> fs.next <= r.value.next && fs.plusOne <= r.value.plusOne
    ensures r.Ok? ==> Bounded(g, Snapshot(reach), r.value.next, layer + 1) && Bounded(g, Snapshot(reach), r.value.plusOne, layer + 2)
    ensures r.Ok? ==> Frozen(old(Snapshot(reach)), Snapshot(reach), layer) && Tracked(old(Snapshot(reach)), Snapshot(reach), r.value)
    ensures r.Ok? ==> Sound(g, ship, reach, layer) && Settled(g, ship, Snapshot(reach), pos)
  {
    ghost var before := Snapshot(reach);
    var e := reach[pos.x, pos.y];
    var arrival := NextArrival(g.consts, ship, g.cells(pos).halite, e.Halite(), e.Turns());
    var nbrs := GetNeighbourhood(g.board, pos, 1);
    NeighbourhoodWithin(g.board, pos, 1);
    r := RelaxAll(g, ship, reach, layer, e.Turns(), arrival.0, arrival.1, nbrs, fs);
    if r.Ok? {
      assert before[pos.x][pos.y] == e;
      assert Snapshot(reach)[pos.x][pos.y] == e;
    }
  }

  /** One turn of the layer loop: expand `pos`, keeping the layer's
      progress. */
  method ExpandNext(g: Game, ship: Ship, reach: array2<Reach>, layer: int, positions: set<Position>,
                    ghost done: set<Position>, ghost next: set<Position>, fs: Frontiers, pos: Position,
                    ghost before: seq<seq<Reach>>)
    returns (r: Result<Frontiers>)
    requires Square(g.board) && ValidConstants(g.consts) && pos in positions
    requires Sound(g, ship, reach, layer)
    requires LayerProgress(g, ship, before, Snapshot(reach), layer, positions, done, next, fs)
    modifies reach
    ensures r.Err? ==> r.failure == LayerInconsistency
    ensures r.Ok? ==> Sound(g, ship, reach, layer)
    ensures r.Ok? ==> LayerProgress(g, ship, before, Snapshot(reach), layer, positions, done + {pos}, next, r.value)
  {
    ghost var mid := Snapshot(reach);
    r := ExpandCell(g, ship, reach, layer, pos, fs);
    if r.Ok? {
      ImprovedBetter(mid, reach);
      LayerProgressStep(g, ship, before, mid, Snapshot(reach), layer, positions, done, next, fs, pos, r.value);
    }
  }

  /** One layer (lines 86-135): expand every cell of the current layer, in
      the set's iteration order, counting each one against the budget. On
      success every cell of the layer is settled, entries of at most
      `layer` turns are untouched, and every change is in the frontiers. */
  method ExpandLayer(g: Game, ship: Ship, reach: array2<Reach>, layer: int, positions: set<Position>,
                     next: set<Position>, iterations: int)
    returns (r: Result<Frontiers>, iterationsAfter: int)
    requires Square(g.board) && ValidConstants(g.consts)
    requires Sound(g, ship, reach, layer)
    requires Bounded(g, Snapshot(reach), positions, layer) && Bounded(g, Snapshot(reach), next, layer + 1)
    modifies reach
    ensures iterations <= iterationsAfter <= iterations + |positions|
    ensures r.Ok? ==> iterationsAfter == iterations + |positions|
    ensures r.Err? ==> r.failure == LayerInconsistency
    ensures r.Ok? ==> Sound(g, ship, reach, layer)
    ensures r.Ok? ==> LayerProgress(g, ship, old(Snapshot(reach)), Snapshot(reach), layer, positions, positions, next, r.value)
  {
    ghost var before := Snapshot(reach);
    ImprovedRefl(reach, before);
    var fs := Frontiers(next, {});
    var remaining := positions;
    iterationsAfter := iterations;
    while remaining != {}
      invariant remaining <= positions
      invariant iterationsAfter + |remaining| == iterations + |positions|
      invariant Sound(g, ship, reach, layer)
      invariant LayerProgress(g, ship, before, Snapshot(reach), layer, positions, positions - remaining, next, fs)
    {
      var pos :| pos in remaining;
      ghost var done := positions - remaining;
      remaining := remaining - {pos};
      assert positions - remaining == done + {pos};
      iterationsAfter := iterationsAfter + 1;
      var step := ExpandNext(g, ship, reach, layer, positions, done, next, fs, pos, before);
      if step.Err? {
        return Err(step.failure), iterationsAfter;
      }
      fs := step.value;
    }
    r := Ok(fs);
  }

  lemma SoundNextLayer(g: Game, ship: Ship, reach: array2<Reach>, layer: int)
    requires Sound(g, ship, reach, layer)
    ensures Sound(g, ship, reach, layer + 1)
  {
  }

  /** The initial field: only the ship's cell is scored, with 0 turns and
      the ship's cargo (lines 59-73). */
  method StartField(g: Game, ship: Ship) returns (reach: array2<Reach>)
    requires ValidMap(g.board) && OnMap(g.board, ship.position)
    ensures fresh(reach) && Sound(g, ship, reach, 0)
    ensures forall x, y :: 0 <= x < reach.Length0 && 0 <= y < reach.Length1 ==>
      reach[x, y] == if Position(x, y) == ship.position then Reached(0, ship.halite) else Unscored
  {
    reach := new Reach[g.board.height, g.board.width]((x, y) => Unscored);
    reach[ship.position.x, ship.position.y] := Reached(0, ship.halite);
  }

  /** The search loop (lines 78-140). The budget is checked before each
      layer and again after it; the check before fires only while nothing
      has been counted in this search, that is when the count it starts
      from already exceeds the budget. A search that drains its frontiers
      leaves the field closed under relaxation. */
  method SearchField(g: Game, ship: Ship, iterationsAllowed: int, iterationsBefore: int)
    returns (reach: array2<Reach>, iterations: int, r: Result<Stop>)
    requires Square(g.board) && ValidConstants(g.consts) && OnMap(g.board, ship.position)
    ensures fresh(reach) && Shaped(g, reach)
    ensures iterations >= iterationsBefore
    ensures r.Err? ==> r.failure == LayerInconsistency
    ensures r.Ok? ==> exists layer :: layer >= 0 && Sound(g, ship, reach, layer)
    ensures r == Ok(TopCheck) <==> iterationsBefore > iterationsAllowed
    ensures r == Ok(TopCheck) ==> iterations == iterationsBefore
    ensures r == Ok(AfterLayer) ==> iterationsBefore <= iterationsAllowed < iterations
    ensures r == Ok(Drained) ==> iterationsBefore <= iterations <= iterationsAllowed
    ensures r == Ok(Drained) ==> Closed(g, ship, Snapshot(reach))
  {
    reach := StartField(g, ship);
    var positionsToScore: set<Position> := {ship.position};
    var nextPositionsToScore: set<Position> := {};
    var layer := 0;
    iterations := iterationsBefore;
    while positionsToScore != {} || nextPositionsToScore != {}
      invariant 0 <= layer && iterationsBefore <= iterations
      invariant iterations == iterationsBefore ==> positionsToScore == {ship.position}
      invariant iterations == iterationsBefore || iterations <= iterationsAllowed
      invariant Sound(g, ship, reach, layer)
      invariant Bounded(g, Snapshot(reach), positionsToScore, layer) && Bounded(g, Snapshot(reach), nextPositionsToScore, layer + 1)
      invariant Frontier(g, ship, Snapshot(reach), layer, positionsToScore, nextPositionsToScore)
      decreases iterationsAllowed - iterations, if positionsToScore == {} then 1 else 0
    {
      if iterations > iterationsAllowed {
        assert Sound(g, ship, reach, layer);
        return reach, iterations, Ok(TopCheck);
      }
      ghost var before := Snapshot(reach);
      var step, after := ExpandLayer(g, ship, reach, layer, positionsToScore, nextPositionsToScore, iterations);
      if step.Err? {
        return reach, after, Err(step.failure);
      }
      iterations := after;
      if iterations > iterationsAllowed {
        assert Sound(g, ship, reach, layer);
        return reach, iterations, Ok(AfterLayer);
      }
      LayerClosed(g, ship, before, Snapshot(reach), layer, positionsToScore, nextPositionsToScore, step.value);
      positionsToScore := step.value.next;
      nextPositionsToScore := step.value.plusOne;
      SoundNextLayer(g, ship, reach, layer);
      layer := layer + 1;
    }
    assert Sound(g, ship, reach, layer);
    r := Ok(Drained);
  }

  // ---------------------------------------------------------------------
  // Scores

  /** getMiningScore's early exits (lines 171-177), with `profit` standing
      for the floating-point simulation that follows them; and +Infinity
      for a cell the search never reached (lines 144-147). The second
      component is the intended mining turns, left 0 on every exit. */
  function CellScore(g: Game, ship: Ship, p: Position, e: Reach, profit: (Position, int, int) -> (Score, int)): (r: (Score, int))
    ensures e.Unscored? ==> r == (Infinite, 0)
    ensures e.Reached? && g.cells(p).structureOwner.Some? ==> r == (Infinite, 0)
    ensures e.Reached? && e.halite + g.cells(p).halite <= ship.halite ==> r == (Infinite, 0)
    ensures r.0.Finite? ==> e.Reached? && g.cells(p).structureOwner.None? && e.halite + g.cells(p).halite > ship.halite
    ensures e.Reached? && g.cells(p).structureOwner.None? && e.halite + g.cells(p).halite > ship.halite ==>
      r == profit(p, e.turns, e.halite)
    ensures r.0.Finite? ==> r == profit(p, e.turns, e.halite)
  {
    if e.Unscored? then (Infinite, 0)
    else if g.cells(p).structureOwner.Some? then (Infinite, 0)
    else if e.halite + g.cells(p).halite <= ship.halite then (Infinite, 0)
    else profit(p, e.turns, e.halite)
  }

  /** The scoring pass over one row (the inner loop of lines 143-161). */
  method ScoreRow(g: Game, ship: Ship, reach: array2<Reach>, profit: (Position, int, int) -> (Score, int), x: int,
                  scored: array2<bool>, scores: array2<Score>, miningTurns: array2<int>)
    requires Square(g.board) && Shaped(g, reach) && 0 <= x < g.board.height
    requires scored.Length0 == scores.Length0 == miningTurns.Length0 == g.board.height
    requires scored.Length1 == scores.Length1 == miningTurns.Length1 == g.board.width
    modifies scored, scores, miningTurns
    ensures forall y :: 0 <= y < g.board.height ==>
      && scored[x, y] == reach[x, y].Reached?
      && (scores[x, y], miningTurns[x, y]) == CellScore(g, ship, Position(x, y), reach[x, y], profit)
    ensures forall i, y :: 0 <= i < g.board.height && i != x && 0 <= y < g.board.width ==>
      scored[i, y] == old(scored[i, y]) && scores[i, y] == old(scores[i, y]) && miningTurns[i, y] == old(miningTurns[i, y])
  {
    for y := 0 to g.board.height
      invariant forall j :: 0 <= j < y ==>
        && scored[x, j] == reach[x, j].Reached?
        && (scores[x, j], miningTurns[x, j]) == CellScore(g, ship, Position(x, j), reach[x, j], profit)
      invariant forall i, j :: 0 <= i < g.board.height && i != x && 0 <= j < g.board.width ==>
        scored[i, j] == old(scored[i, j]) && scores[i, j] == old(scores[i, j]) && miningTurns[i, j] == old(miningTurns[i, j])
    {
      var s := CellScore(g, ship, Position(x, y), reach[x, y], profit);
      scored[x, y] := reach[x, y].Reached?;
      scores[x, y] := s.0;
      miningTurns[x, y] := s.1;
    }
  }

  /** The scoring pass (lines 142-162); both loops run to the height, as
      in the source, which covers the map because it is square. */
  method ScoreField(g: Game, ship: Ship, reach: array2<Reach>, profit: (Position, int, int) -> (Score, int))
    returns (scored: array2<bool>, scores: array2<Score>, miningTurns: array2<int>)
    requires Square(g.board) && Shaped(g, reach)
    ensures fresh(scored) && fresh(scores) && fresh(miningTurns)
    ensures Shaped(g, reach)
    ensures scored.Length0 == scores.Length0 == miningTurns.Length0 == g.board.height
    ensures scored.Length1 == scores.Length1 == miningTurns.Length1 == g.board.width
    ensures forall x, y :: 0 <= x < g.board.height && 0 <= y < g.board.width ==>
      && scored[x, y] == reach[x, y].Reached?
      && (scores[x, y], miningTurns[x, y]) == CellScore(g, ship, Position(x, y), reach[x, y], profit)
  {
    scored := new bool[g.board.height, g.board.width]((x, y) => false);
    scores := new Score[g.board.height, g.board.width]((x, y) => Infinite);
    miningTurns := new int[g.board.height, g.board.width]((x, y) => 0);
    for x := 0 to g.board.height
      invariant forall i, y :: 0 <= i < x && 0 <= y < g.board.width ==>
        && scored[i, y] == reach[i, y].Reached?
        && (scores[i, y], miningTurns[i, y]) == CellScore(g, ship, Position(i, y), reach[i, y], profit)
    {
      ScoreRow(g, ship, reach, profit, x, scored, scores, miningTurns);
    }
  }

  // ---------------------------------------------------------------------
  // The object

  /** MiningScoresFromPosition: built with a ship and its iteration
      budget; `profit` stands for the return-turn table and the other
      floating-point inputs of the score. `invoke` fills the tables. */
  class MiningScoresFromPosition {
    const game: Game
    const moveRegister: MoveRegister
    const profit: (Position, int, int) -> (Score, int)
    const ship: Ship
    const iterationsAllowed: int
    var shipIterations: int
    var scored: array2?<bool>
    var scores: array2?<Score>
    var miningTurns: array2?<int>
    /** The cost field behind the tables (local arrays in the source). */
    ghost var arrivals: array2?<Reach>

    constructor(game: Game, moveRegister: MoveRegister, profit: (Position, int, int) -> (Score, int),
                ship: Ship, iterationsAllowed: int)
      ensures this.game == game && this.moveRegister == moveRegister && this.profit == profit
      ensures this.ship == ship && this.iterationsAllowed == iterationsAllowed
      ensures shipIterations == 0 && scored == null && scores == null && miningTurns == null
    {
      this.game := game;
      this.moveRegister := moveRegister;
      this.profit := profit;
      this.ship := ship;
      this.iterationsAllowed := iterationsAllowed;
      shipIterations := 0;
      scored := null;
      scores := null;
      miningTurns := null;
      arrivals := null;
    }

    /** The tables describe `arrivals`, a sound field for this ship. */
    ghost predicate Filled()
      reads this, arrivals
    {
      && scored != null && scores != null && miningTurns != null && arrivals != null
      && Shaped(game, arrivals)
      && (exists layer :: layer >= 0 && Sound(game, ship, arrivals, layer))
      && scored.Length0 == scores.Length0 == miningTurns.Length0 == game.board.height
      && scored.Length1 == scores.Length1 == miningTurns.Length1 == game.board.width
    }

    /** The scoring pass over a searched field (lines 142-162): the tables
        are filled from the field, which becomes `arrivals`. */
    method Install(reach: array2<Reach>)
      requires Square(game.board) && Shaped(game, reach)
      requires exists layer :: layer >= 0 && Sound(game, ship, reach, layer)
      modifies this
      ensures Filled() && fresh(scored) && fresh(scores) && fresh(miningTurns) && arrivals == reach
      ensures forall x, y :: 0 <= x < game.board.height && 0 <= y < game.board.width ==>
        && scored[x, y] == arrivals[x, y].Reached?
        && (scores[x, y], miningTurns[x, y]) == CellScore(game, ship, Position(x, y), arrivals[x, y], profit)
      ensures shipIterations == old(shipIterations)
    {
      ghost var layer :| layer >= 0 && Sound(game, ship, reach, layer);
      var s, sc, mt := ScoreField(game, ship, reach, profit);
      scored, scores, miningTurns, arrivals := s, sc, mt, reach;
      assert Sound(game, ship, arrivals, layer);
    }

    /** invoke as written: the search, then the scoring pass. The
        out-of-time flag is raised only by the check at the top of the
        search loop, so it is raised exactly when the count was already
        over the budget before the search (for a new object: a negative
        budget); a budget spent during a layer stops the search at line
        136 without raising it. */
    method Invoke() returns (r: Result<()>)
      requires Square(game.board) && ValidConstants(game.consts) && OnMap(game.board, ship.position)
      modifies this, moveRegister`outOfTime
      ensures r.Ok? ==> Filled() && fresh(scored) && fresh(scores) && fresh(miningTurns)
      ensures r.Ok? ==> forall x, y :: 0 <= x < game.board.height && 0 <= y < game.board.width ==>
        && scored[x, y] == arrivals[x, y].Reached?
        && (scores[x, y], miningTurns[x, y]) == CellScore(game, ship, Position(x, y), arrivals[x, y], profit)
      ensures r.Ok? ==> (moveRegister.outOfTime <==> old(moveRegister.outOfTime) || old(shipIterations) > iterationsAllowed)
      ensures r.Ok? && old(shipIterations) <= iterationsAllowed < shipIterations ==>
        moveRegister.outOfTime == old(moveRegister.outOfTime)
      ensures r.Ok? && shipIterations <= iterationsAllowed ==> Closed(game, ship, Snapshot(arrivals))
      ensures r.Err? ==> r.failure == LayerInconsistency && moveRegister.outOfTime == old(moveRegister.outOfTime)
      ensures shipIterations >= old(shipIterations)
    {
      var reach, iterations, stop := SearchField(game, ship, iterationsAllowed, shipIterations);
      if stop.Err? {
        shipIterations := iterations;
        return Err(stop.failure);
      }
      ghost var layer :| layer >= 0 && Sound(game, ship, reach, layer);
      shipIterations := iterations;
      if stop.value == TopCheck {
        moveRegister.outOfTime := true;
      }
      assert Sound(game, ship, reach, layer);
      Install(reach);
      r := Ok(());
    }
    /** invoke with the flag raised wherever the budget stops the search,
        after a layer as well as before one: afterwards the flag is set
        exactly when it was set before or the count exceeds the budget. */
    method InvokeReportingBudget() returns (r: Result<()>)
      requires Square(game.board) && ValidConstants(game.consts) && OnMap(game.board, ship.position)
      modifies this, moveRegister`outOfTime
      ensures r.Ok? ==> Filled() && fresh(scored) && fresh(scores) && fresh(miningTurns)
      ensures r.Ok? ==> forall x, y :: 0 <= x < game.board.height && 0 <= y < game.board.width ==>
        && scored[x, y] == arrivals[x, y].Reached?
        && (scores[x, y], miningTurns[x, y]) == CellScore(game, ship, Position(x, y), arrivals[x, y], profit)
      ensures r.Ok? ==> (moveRegister.outOfTime <==> old(moveRegister.outOfTime) || shipIterations > iterationsAllowed)
      ensures r.Ok? && shipIterations <= iterationsAllowed ==> Closed(game, ship, Snapshot(arrivals))
      ensures r.Err? ==> r.failure == LayerInconsistency && moveRegister.outOfTime == old(moveRegister.outOfTime)
      ensures shipIterations >= old(shipIterations)
    {
      var reach, iterations, stop := SearchField(game, ship, iterationsAllowed, shipIterations);
      if stop.Err? {
        shipIterations := iterations;
        return Err(stop.failure);
      }
      ghost var layer :| layer >= 0 && Sound(game, ship, reach, layer);
      shipIterations := iterations;
      if stop.value != Drained {
        moveRegister.outOfTime := true;
      }
      assert Sound(game, ship, reach, layer);
      Install(reach);
      r := Ok(());
    }
  }
}
