/** ExceptionalSquareHandler (bots/current_bot/ExceptionalSquareHandler.java):
    contests for exceptionally rich cells near the enemy. From such a cell a
    fill spreads outwards layer by layer; each cell of a layer carries the
    least halite a ship there needs to pay its way to the rich cell, and
    the ships standing on the layer that can afford it are counted for us
    or for them. The contest is lost as soon as our side, even with this
    layer's ships, has fewer ships than theirs, and won in the symmetric
    case; when it is won our counted ships head for the cell, nearest
    first. */
module ExceptionalSquares {
  import opened Wrappers
  import opened Geometry
  import opened World
  import opened CommonFunctions
  import opened Tiebreakers
  import opened Navigation
  import opened MoveRegistry
  import opened MapStats
  import opened ShipCommands
  import Preferences

  /** The bot constants the handler reads. */
  datatype Tuning = Tuning(exceptionalSquareProportion: real, exceptionalEnemyDistance: int, assumedReturningHalite: int)

  /** The default of minHalitePerPosition.getOrDefault: an offer of this
      much halite or more never enters the next layer. */
  const Cap := 10000

  // ---------------------------------------------------------------------
  // Which cells are contested (lines 26-33)

  /** haliteThreshold: the given proportion of the mean halite per cell. */
  function HaliteThreshold(m: GameMap, proportion: real, haliteSum: int): (r: real)
    requires ValidMap(m)
    ensures proportion >= 0.0 && haliteSum >= 0 ==> r >= 0.0
  {
    MulAtLeast(m.width, m.height);
    proportion * haliteSum as real / (m.width * m.height) as real
  }

  /** A cell is exceptional when its halite exceeds the threshold and the
      nearest enemy is closer than the configured distance. */
  predicate Exceptional(g: Game, nearestEnemy: map<Position, int>, t: Tuning, haliteSum: int, p: Position)
    requires ValidMap(g.board) && p in nearestEnemy
  {
    g.cells(p).halite as real > HaliteThreshold(g.board, t.exceptionalSquareProportion, haliteSum)
    && nearestEnemy[p] < t.exceptionalEnemyDistance
  }

  // ---------------------------------------------------------------------
  // The side a layer cell's ship counts for (lines 55-60)

  datatype Side = Ours | Theirs | Neither

  /** A ship on a layer cell counts only if it carries at least the cell's
      need. Our ships that are not returning count for us; any other ship,
      our returning ships included, counts for them when it carries less
      than the assumed returning cargo. */
  function SideOf(g: Game, returning: set<nat>, t: Tuning, p: Position, need: int): Side
  {
    match g.cells(p).ship
    case None => Neither
    case Some(ship) =>
      if ship.halite < need then Neither
      else if ship.owner == g.me.id && ship.id !in returning then Ours
      else if ship.halite < t.assumedReturningHalite then Theirs
      else Neither
  }

  /** The cells of `done` in the layer whose ship counts for `side`. */
  function SideCells(g: Game, returning: set<nat>, t: Tuning, layer: map<Position, int>, done: set<Position>, side: Side): set<Position>
  {
    set p | p in done && p in layer && SideOf(g, returning, t, p, layer[p]) == side
  }

  /** Our ship stands on the cell, and it is not returning. */
  predicate OurShipAt(g: Game, returning: set<nat>, p: Position)
  {
    g.cells(p).ship.Some? && g.cells(p).ship.value.owner == g.me.id && g.cells(p).ship.value.id !in returning
  }

  /** The two sides' cells, as the classification describes them. */
  lemma SideCellsMeaning(g: Game, returning: set<nat>, t: Tuning, layer: map<Position, int>, done: set<Position>)
    ensures forall p :: p in SideCells(g, returning, t, layer, done, Ours) <==>
      p in done && p in layer && OurShipAt(g, returning, p) && g.cells(p).ship.value.halite >= layer[p]
    ensures forall p :: p in SideCells(g, returning, t, layer, done, Theirs) <==>
      (&& p in done && p in layer && g.cells(p).ship.Some? && !OurShipAt(g, returning, p)
       && layer[p] <= g.cells(p).ship.value.halite < t.assumedReturningHalite)
  {
  }

  // ---------------------------------------------------------------------
  // The next layer (lines 61-73)

  /** The least element of a set, and Cap for the empty set. */
  ghost function LeastOf(s: set<int>): (r: int)
    ensures s == {} ==> r == Cap
    ensures s != {} ==> r in s && forall x :: x in s ==> r <= x
  {
    if s == {} then Cap
    else
      LeastExists(s);
      var x :| IsLeast(s, x);
      x
  }

  /** `x` is the least element of `s`. */
  ghost predicate IsLeast(s: set<int>, x: int)
  {
    x in s && forall y :: y in s ==> x <= y
  }

  lemma {:induction false} LeastExists(s: set<int>)
    requires s != {}
    ensures exists x :: IsLeast(s, x)
    decreases |s|
  {
    EmptyOrInhabited(s);
    var a :| a in s;
    var rest := s - {a};
    assert forall y :: y in s ==> y == a || y in rest;
    if rest == {} {
      assert IsLeast(s, a);
    } else {
      LeastExists(rest);
      var b :| IsLeast(rest, b);
      if a <= b {
        assert IsLeast(s, a);
      } else {
        assert IsLeast(s, b);
      }
    }
  }

  /** The cost of moving off each cell: moveCost of its halite. */
  function MoveCosts(g: Game): Position -> int
    requires ValidGame(g)
  {
    n => MoveCost(g.consts, g.cells(n).halite)
  }

  /** The need a layer cell `p` offers its neighbour `n`: its own need plus
      the cost of moving off `n`. */
  function Via(cost: Position -> int, layer: map<Position, int>, p: Position, n: Position): int
    requires p in layer
  {
    layer[p] + cost(n)
  }

  /** Every offer the layer makes to `n`. */
  ghost function Offers(m: GameMap, cost: Position -> int, layer: map<Position, int>, n: Position): set<int>
    requires ValidMap(m)
  {
    set p | p in layer && n in Near(m, p) :: Via(cost, layer, p, n)
  }

  /** The next layer: every cell not yet found that the layer offers less
      than Cap, with the least offer as its need. */
  ghost function NextLayer(m: GameMap, cost: Position -> int, layer: map<Position, int>, found: set<Position>): map<Position, int>
    requires ValidMap(m)
  {
    map n | n in Grid(m) && n !in found && LeastOf(Offers(m, cost, layer, n)) < Cap :: LeastOf(Offers(m, cost, layer, n))
  }

  /** Some parent among `parents` offers `v` to `n`. */
  ghost predicate Offered(m: GameMap, cost: Position -> int, layer: map<Position, int>, parents: set<Position>, n: Position, v: int)
    requires ValidMap(m)
  {
    exists p :: p in parents && p in layer && n in Near(m, p) && v == Via(cost, layer, p, n)
  }

  /** Every entry of `next` is new, below Cap and offered by a parent. */
  ghost predicate Achieved(m: GameMap, cost: Position -> int, layer: map<Position, int>, parents: set<Position>, found: set<Position>,
                           next: map<Position, int>)
    requires ValidMap(m)
  {
    forall n :: n in next ==> n !in found && next[n] < Cap && Offered(m, cost, layer, parents, n, next[n])
  }

  /** Every offer `p` makes to a new cell below Cap is entered and met. */
  ghost predicate CoveredBy(m: GameMap, cost: Position -> int, layer: map<Position, int>, p: Position, found: set<Position>,
                            next: map<Position, int>)
    requires ValidMap(m) && p in layer
  {
    forall n :: n in Near(m, p) && n !in found && Via(cost, layer, p, n) < Cap ==> n in next && next[n] <= Via(cost, layer, p, n)
  }

  /** CoveredBy for the listed neighbours only. */
  ghost predicate CoveredAmong(cost: Position -> int, layer: map<Position, int>, p: Position, found: set<Position>,
                               next: map<Position, int>, ns: seq<Position>)
    requires p in layer
  {
    forall n :: n in ns && n !in found && Via(cost, layer, p, n) < Cap ==> n in next && next[n] <= Via(cost, layer, p, n)
  }

  ghost predicate Covered(m: GameMap, cost: Position -> int, layer: map<Position, int>, parents: set<Position>, found: set<Position>,
                          next: map<Position, int>)
    requires ValidMap(m)
  {
    forall p :: p in parents && p in layer ==> CoveredBy(m, cost, layer, p, found, next)
  }

  ghost predicate KeysOnMap(m: GameMap, next: map<Position, int>)
  {
    forall n :: n in next ==> OnMap(m, n)
  }

  /** The next layer's characterisation: a cell enters exactly when it is
      new and some layer cell next to it offers less than Cap, and its need
      is the least such offer. */
  lemma NextLayerMeaning(m: GameMap, cost: Position -> int, layer: map<Position, int>, found: set<Position>)
    requires ValidMap(m) && forall p :: p in layer ==> OnMap(m, p)
    ensures Achieved(m, cost, layer, layer.Keys, found, NextLayer(m, cost, layer, found))
    ensures Covered(m, cost, layer, layer.Keys, found, NextLayer(m, cost, layer, found))
  {
    var next := NextLayer(m, cost, layer, found);
    forall n | n in next
      ensures Offered(m, cost, layer, layer.Keys, n, next[n])
    {
      var v := LeastOf(Offers(m, cost, layer, n));
      assert v in Offers(m, cost, layer, n);
      var p :| p in layer && n in Near(m, p) && v == Via(cost, layer, p, n);
    }
    forall p | p in layer.Keys && p in layer
      ensures CoveredBy(m, cost, layer, p, found, next)
    {
      forall n | n in Near(m, p) && n !in found && Via(cost, layer, p, n) < Cap
        ensures n in next && next[n] <= Via(cost, layer, p, n)
      {
        NearOnMap(m, p);
        InGrid(m, n);
        assert Via(cost, layer, p, n) in Offers(m, cost, layer, n);
      }
    }
  }

  /** An entry of a table meeting every offer is the least offer. */
  lemma EntryIsLeast(m: GameMap, cost: Position -> int, layer: map<Position, int>, found: set<Position>, next: map<Position, int>, n: Position)
    requires ValidMap(m) && n in next && OnMap(m, n)
    requires Achieved(m, cost, layer, layer.Keys, found, next) && Covered(m, cost, layer, layer.Keys, found, next)
    ensures n in NextLayer(m, cost, layer, found) && NextLayer(m, cost, layer, found)[n] == next[n]
  {
    assert Offered(m, cost, layer, layer.Keys, n, next[n]);
    var p :| p in layer.Keys && p in layer && n in Near(m, p) && next[n] == Via(cost, layer, p, n);
    assert next[n] in Offers(m, cost, layer, n);
    var least := LeastOf(Offers(m, cost, layer, n));
    var q :| q in layer && n in Near(m, q) && least == Via(cost, layer, q, n);
    assert CoveredBy(m, cost, layer, q, found, next);
    InGrid(m, n);
  }

  /** A cell of the next layer is entered in a table meeting every offer. */
  lemma LeastIsEntered(m: GameMap, cost: Position -> int, layer: map<Position, int>, found: set<Position>, next: map<Position, int>, n: Position)
    requires ValidMap(m) && n in NextLayer(m, cost, layer, found)
    requires Covered(m, cost, layer, layer.Keys, found, next)
    ensures n in next
  {
    var least := LeastOf(Offers(m, cost, layer, n));
    var q :| q in layer && n in Near(m, q) && least == Via(cost, layer, q, n);
    assert CoveredBy(m, cost, layer, q, found, next);
  }

  /** Conversely the characterisation fixes the next layer: a table that
      meets every offer and holds only offered entries is NextLayer. */
  lemma NextLayerUnique(m: GameMap, cost: Position -> int, layer: map<Position, int>, found: set<Position>, next: map<Position, int>)
    requires ValidMap(m) && KeysOnMap(m, next)
    requires Achieved(m, cost, layer, layer.Keys, found, next) && Covered(m, cost, layer, layer.Keys, found, next)
    ensures next == NextLayer(m, cost, layer, found)
  {
    var want := NextLayer(m, cost, layer, found);
    forall n | n in next
      ensures n in want && want[n] == next[n]
    {
      EntryIsLeast(m, cost, layer, found, next, n);
    }
    forall n | n in want
      ensures n in next
    {
      LeastIsEntered(m, cost, layer, found, next, n);
    }
    SameEntries(next, want);
  }

  /** Two tables with the same cells and entries are equal. */
  lemma SameEntries(a: map<Position, int>, b: map<Position, int>)
    requires (forall n :: n in a ==> n in b && b[n] == a[n]) && (forall n :: n in b ==> n in a)
    ensures a == b
  {
  }

  /** A table offered by fewer parents is offered by more. */
  lemma AchievedWiden(m: GameMap, cost: Position -> int, layer: map<Position, int>, parents: set<Position>, more: set<Position>,
                      found: set<Position>, next: map<Position, int>)
    requires ValidMap(m) && parents <= more && Achieved(m, cost, layer, parents, found, next)
    ensures Achieved(m, cost, layer, more, found, next)
  {
    forall n | n in next
      ensures Offered(m, cost, layer, more, n, next[n])
    {
      var p :| p in parents && p in layer && n in Near(m, p) && next[n] == Via(cost, layer, p, n);
    }
  }

  /** Entering a new offered value keeps every entry offered. */
  lemma AchievedSet(m: GameMap, cost: Position -> int, layer: map<Position, int>, parents: set<Position>, found: set<Position>,
                    next: map<Position, int>, n: Position, v: int)
    requires ValidMap(m) && Achieved(m, cost, layer, parents, found, next)
    requires n !in found && v < Cap && Offered(m, cost, layer, parents, n, v)
    ensures Achieved(m, cost, layer, parents, found, next[n := v])
  {
  }

  /** Lowering an entry, or entering one no parent could have offered
      below Cap, keeps every offer met. */
  lemma CoveredLowered(m: GameMap, cost: Position -> int, layer: map<Position, int>, parents: set<Position>, found: set<Position>,
                       next: map<Position, int>, n: Position, v: int)
    requires ValidMap(m) && Covered(m, cost, layer, parents, found, next)
    requires n in next ==> v <= next[n]
    ensures Covered(m, cost, layer, parents, found, next[n := v])
  {
    forall p | p in parents && p in layer
      ensures CoveredBy(m, cost, layer, p, found, next[n := v])
    {
      assert CoveredBy(m, cost, layer, p, found, next);
    }
  }

  /** One neighbour `n` of the layer cell `p` (lines 63-67): skipped when
      already found, otherwise `p`'s offer replaces a larger entry, Cap
      standing for a missing one. */
  method Offer(m: GameMap, cost: Position -> int, layer: map<Position, int>, found: set<Position>, ghost done: set<Position>,
               p: Position, n: Position, next: map<Position, int>) returns (next': map<Position, int>)
    requires ValidMap(m) && p in layer && done <= layer.Keys && n in Near(m, p) && OnMap(m, n)
    requires Achieved(m, cost, layer, done + {p}, found, next) && Covered(m, cost, layer, done, found, next) && KeysOnMap(m, next)
    ensures Achieved(m, cost, layer, done + {p}, found, next') && Covered(m, cost, layer, done, found, next') && KeysOnMap(m, next')
    ensures CoveredAmong(cost, layer, p, found, next', [n])
    ensures next.Keys <= next'.Keys && forall k :: k in next ==> next'[k] <= next[k]
  {
    if n in found {
      return next;
    }
    var halite := layer[p] + cost(n);
    var current := if n in next then next[n] else Cap;
    if halite < current {
      next' := next[n := halite];
      assert Offered(m, cost, layer, done + {p}, n, halite);
      AchievedSet(m, cost, layer, done + {p}, found, next, n, halite);
      CoveredLowered(m, cost, layer, done, found, next, n, halite);
    } else {
      next' := next;
    }
  }

  lemma TakeOneMore(s: seq<Position>, i: int)
    requires 0 <= i < |s|
    ensures s[..i + 1] == s[..i] + [s[i]]
  {
  }

  /** The neighbourhood loop of one layer cell (lines 62-68). */
  method OfferFrom(m: GameMap, cost: Position -> int, layer: map<Position, int>, found: set<Position>, ghost done: set<Position>,
                   p: Position, next: map<Position, int>) returns (next': map<Position, int>)
    requires ValidMap(m) && p in layer && OnMap(m, p) && done <= layer.Keys
    requires Achieved(m, cost, layer, done, found, next) && Covered(m, cost, layer, done, found, next) && KeysOnMap(m, next)
    ensures Achieved(m, cost, layer, done + {p}, found, next') && Covered(m, cost, layer, done + {p}, found, next') && KeysOnMap(m, next')
  {
    var nbrs := GetNeighbourhood(m, p, 1);
    NearOnMap(m, p);
    assert nbrs == Near(m, p);
    AchievedWiden(m, cost, layer, done, done + {p}, found, next);
    next' := next;
    for i := 0 to |nbrs|
      invariant Achieved(m, cost, layer, done + {p}, found, next') && Covered(m, cost, layer, done, found, next') && KeysOnMap(m, next')
      invariant CoveredAmong(cost, layer, p, found, next', nbrs[..i])
    {
      next' := Offer(m, cost, layer, found, done, p, nbrs[i], next');
      TakeOneMore(nbrs, i);
    }
    assert nbrs[..|nbrs|] == nbrs;
    assert CoveredBy(m, cost, layer, p, found, next');
  }

  /** The ship test of one layer cell (lines 55-60). */
  method Classify(g: Game, returning: set<nat>, t: Tuning, layer: map<Position, int>, ghost done: set<Position>, p: Position,
                  ourNext: set<Position>, theirNext: set<Position>) returns (ourNext': set<Position>, theirNext': set<Position>)
    requires p in layer
    requires ourNext == SideCells(g, returning, t, layer, done, Ours)
    requires theirNext == SideCells(g, returning, t, layer, done, Theirs)
    ensures ourNext' == SideCells(g, returning, t, layer, done + {p}, Ours)
    ensures theirNext' == SideCells(g, returning, t, layer, done + {p}, Theirs)
  {
    ourNext', theirNext' := ourNext, theirNext;
    var need := layer[p];
    match g.cells(p).ship {
      case Some(ship) =>
        if ship.halite >= need {
          if ship.owner == g.me.id && ship.id !in returning {
            ourNext' := ourNext + {p};
          } else if ship.halite < t.assumedReturningHalite {
            theirNext' := theirNext + {p};
          }
        }
      case None =>
    }
  }

  /** What the pass over the layer has built after the cells of `done`. */
  ghost predicate ExpandInv(g: Game, returning: set<nat>, t: Tuning, cost: Position -> int, layer: map<Position, int>, done: set<Position>,
                            found: set<Position>, next: map<Position, int>, ourNext: set<Position>, theirNext: set<Position>)
    requires ValidMap(g.board)
  {
    && Achieved(g.board, cost, layer, done, found, next) && Covered(g.board, cost, layer, done, found, next)
    && KeysOnMap(g.board, next)
    && ourNext == SideCells(g, returning, t, layer, done, Ours)
    && theirNext == SideCells(g, returning, t, layer, done, Theirs)
  }

  /** The loop body of the pass for the layer cell `p`. */
  method ExpandCell(g: Game, returning: set<nat>, t: Tuning, cost: Position -> int, layer: map<Position, int>, ghost done: set<Position>,
                    found: set<Position>, p: Position, next: map<Position, int>, ourNext: set<Position>, theirNext: set<Position>)
    returns (next': map<Position, int>, ourNext': set<Position>, theirNext': set<Position>)
    requires ValidMap(g.board) && p in layer && OnMap(g.board, p) && done <= layer.Keys
    requires ExpandInv(g, returning, t, cost, layer, done, found, next, ourNext, theirNext)
    ensures ExpandInv(g, returning, t, cost, layer, done + {p}, found, next', ourNext', theirNext')
  {
    ourNext', theirNext' := Classify(g, returning, t, layer, done, p, ourNext, theirNext);
    next' := OfferFrom(g.board, cost, layer, found, done, p, next);
  }

  /** The loop over the layer (lines 53-69). */
  method ExpandAll(g: Game, returning: set<nat>, t: Tuning, cost: Position -> int, layer: map<Position, int>, found: set<Position>)
    returns (next: map<Position, int>, ourNext: set<Position>, theirNext: set<Position>)
    requires ValidMap(g.board) && forall p :: p in layer ==> OnMap(g.board, p)
    ensures ExpandInv(g, returning, t, cost, layer, layer.Keys, found, next, ourNext, theirNext)
  {
    next, ourNext, theirNext := map[], {}, {};
    var todo := layer.Keys;
    ghost var done: set<Position> := {};
    while todo != {}
      invariant todo <= layer.Keys && done == layer.Keys - todo
      invariant ExpandInv(g, returning, t, cost, layer, done, found, next, ourNext, theirNext)
      decreases |todo|
    {
      var p :| p in todo;
      next, ourNext, theirNext := ExpandCell(g, returning, t, cost, layer, done, found, p, next, ourNext, theirNext);
      done := done + {p};
      todo := todo - {p};
    }
    assert done == layer.Keys;
  }

  /** One pass over the layer (lines 53-73): the cells whose ship counts
      for each side, and the next layer. `found` already holds the layer. */
  method ExpandContest(g: Game, returning: set<nat>, t: Tuning, cost: Position -> int, layer: map<Position, int>, found: set<Position>)
    returns (next: map<Position, int>, ourNext: set<Position>, theirNext: set<Position>)
    requires ValidMap(g.board) && forall p :: p in layer ==> OnMap(g.board, p)
    ensures next == NextLayer(g.board, cost, layer, found)
    ensures ourNext == SideCells(g, returning, t, layer, layer.Keys, Ours)
    ensures theirNext == SideCells(g, returning, t, layer, layer.Keys, Theirs)
  {
    next, ourNext, theirNext := ExpandAll(g, returning, t, cost, layer, found);
    NextLayerUnique(g.board, cost, layer, found, next);
  }

  // ---------------------------------------------------------------------
  // The fill (lines 35-83)

  /** The fill between two layers: the layer with each cell's need, the
      cells found so far, the cells whose ship was counted for each side,
      and the verdict. The source's ourShips and theirShips lists hold one
      ship per counted cell; here they are the sets of those cells. */
  datatype Contest = Contest(layer: map<Position, int>, found: set<Position>, ours: set<Position>, theirs: set<Position>,
                             won: bool, lost: bool)

  /** The fill's start: the exceptional cell alone, needing nothing. */
  function Start(ex: Position): Contest
  {
    Contest(map[ex := 0], {}, {}, {}, false, false)
  }

  /** What holds of every fill: the layer is on the map and new, the
      counted cells were found, and every cell counted for us holds one of
      our ships that is not returning. */
  ghost predicate Sound(g: Game, returning: set<nat>, c: Contest)
    requires ValidMap(g.board)
  {
    && c.found <= Grid(g.board)
    && (forall p :: p in c.layer ==> OnMap(g.board, p) && p !in c.found)
    && c.ours <= c.found && c.theirs <= c.found
    && (forall p :: p in c.ours ==> OurShipAt(g, returning, p))
  }

  /** The verdict is consistent: never both, and it agrees with the counts. */
  predicate Consistent(c: Contest)
  {
    && !(c.won && c.lost)
    && (c.won ==> |c.theirs| < |c.ours|)
    && (c.lost ==> |c.ours| < |c.theirs|)
  }

  /** One round of the while loop: the layer joins the found cells, its
      counted ships are compared with the totals so far, and the next layer
      replaces it. The totals grow only while neither side has won. */
  ghost function Step(g: Game, returning: set<nat>, t: Tuning, c: Contest): Contest
    requires ValidGame(g)
  {
    var found := c.found + c.layer.Keys;
    var next := NextLayer(g.board, MoveCosts(g), c.layer, found);
    var ourNext := SideCells(g, returning, t, c.layer, c.layer.Keys, Ours);
    var theirNext := SideCells(g, returning, t, c.layer, c.layer.Keys, Theirs);
    var lost := |c.ours| + |ourNext| < |c.theirs|;
    var won := |c.theirs| + |theirNext| < |c.ours|;
    if lost || won then Contest(next, found, c.ours, c.theirs, won, lost)
    else Contest(next, found, c.ours + ourNext, c.theirs + theirNext, false, false)
  }

  /** A round keeps the fill sound; the cells it counts are new, so the
      totals grow by exactly this layer's counts, as the lists do. */
  lemma StepKeepsSound(g: Game, returning: set<nat>, t: Tuning, c: Contest)
    requires ValidGame(g) && Sound(g, returning, c)
    ensures Sound(g, returning, Step(g, returning, t, c))
    ensures var r := Step(g, returning, t, c);
      !r.won && !r.lost ==>
        && |r.ours| == |c.ours| + |SideCells(g, returning, t, c.layer, c.layer.Keys, Ours)|
        && |r.theirs| == |c.theirs| + |SideCells(g, returning, t, c.layer, c.layer.Keys, Theirs)|
  {
    StepSound(g, returning, t, c);
    StepCounts(g, returning, t, c);
  }

  lemma StepSound(g: Game, returning: set<nat>, t: Tuning, c: Contest)
    requires ValidGame(g) && Sound(g, returning, c)
    ensures Sound(g, returning, Step(g, returning, t, c))
  {
    var m := g.board;
    var found := c.found + c.layer.Keys;
    NextLayerFresh(m, MoveCosts(g), c.layer, found);
    var ourNext := SideCells(g, returning, t, c.layer, c.layer.Keys, Ours);
    FoundInGrid(m, c.layer.Keys);
    assert found <= Grid(m);
    assert forall p :: p in ourNext ==> OurShipAt(g, returning, p);
  }

  lemma StepCounts(g: Game, returning: set<nat>, t: Tuning, c: Contest)
    requires ValidGame(g) && Sound(g, returning, c)
    ensures var r := Step(g, returning, t, c);
      !r.won && !r.lost ==>
        && |r.ours| == |c.ours| + |SideCells(g, returning, t, c.layer, c.layer.Keys, Ours)|
        && |r.theirs| == |c.theirs| + |SideCells(g, returning, t, c.layer, c.layer.Keys, Theirs)|
  {
    var ourNext := SideCells(g, returning, t, c.layer, c.layer.Keys, Ours);
    var theirNext := SideCells(g, returning, t, c.layer, c.layer.Keys, Theirs);
    assert c.ours * ourNext == {} && c.theirs * theirNext == {};
  }

  /** The next layer lies on the map, outside the found cells. */
  lemma NextLayerFresh(m: GameMap, cost: Position -> int, layer: map<Position, int>, found: set<Position>)
    requires ValidMap(m)
    ensures forall n :: n in NextLayer(m, cost, layer, found) ==> OnMap(m, n) && n !in found
  {
    GridIsOnMap(m);
  }

  /** Finding new cells of a set leaves fewer of it unfound. */
  lemma FewerUnfound(all: set<Position>, found: set<Position>, found': set<Position>, p: Position)
    requires found <= found' && p in all && p in found' && p !in found
    ensures |all - found'| < |all - found|
  {
    var rest := (all - found) - {p};
    assert all - found' <= rest;
    assert rest == (all - found') + (rest - (all - found'));
  }

  /** A round with a non-empty layer finds at least one new cell. */
  lemma StepShrinks(g: Game, returning: set<nat>, t: Tuning, c: Contest)
    requires ValidGame(g) && Sound(g, returning, c) && c.layer != map[]
    ensures |Grid(g.board) - Step(g, returning, t, c).found| < |Grid(g.board) - c.found|
  {
    var p :| p in c.layer;
    InGrid(g.board, p);
    FewerUnfound(Grid(g.board), c.found, c.found + c.layer.Keys, p);
  }

  /** A round taken before any verdict reaches a consistent one, and a
      decided round leaves the totals as they were. */
  lemma StepVerdict(g: Game, returning: set<nat>, t: Tuning, c: Contest)
    requires ValidGame(g) && !c.won && !c.lost
    ensures Consistent(Step(g, returning, t, c))
    ensures var r := Step(g, returning, t, c); (r.won || r.lost) ==> r.ours == c.ours && r.theirs == c.theirs
  {
  }

  /** The while loop of lines 45-83: rounds until a verdict or an empty
      layer. */
  ghost function RunFill(g: Game, returning: set<nat>, t: Tuning, c: Contest): Contest
    requires ValidGame(g) && Sound(g, returning, c)
    decreases |Grid(g.board) - c.found|
  {
    if c.won || c.lost || c.layer == map[] then c
    else
      StepKeepsSound(g, returning, t, c);
      StepShrinks(g, returning, t, c);
      RunFill(g, returning, t, Step(g, returning, t, c))
  }

  /** The fill ends won, lost or with no layer left; the verdict is
      consistent; and it stays sound. */
  lemma {:induction false} FillOutcome(g: Game, returning: set<nat>, t: Tuning, c: Contest)
    requires ValidGame(g) && Sound(g, returning, c) && Consistent(c)
    ensures var r := RunFill(g, returning, t, c);
      && Sound(g, returning, r) && Consistent(r)
      && (r.won || r.lost || r.layer == map[])
    decreases |Grid(g.board) - c.found|
  {
    if !(c.won || c.lost || c.layer == map[]) {
      StepKeepsSound(g, returning, t, c);
      StepShrinks(g, returning, t, c);
      StepVerdict(g, returning, t, c);
      FillOutcome(g, returning, t, Step(g, returning, t, c));
    }
  }

  /** One pass of the while loop of lines 45-81: the layer joins the found
      cells, is expanded, and the counts decide or grow. */
  method Round(g: Game, returning: set<nat>, t: Tuning, cost: Position -> int, c: Contest) returns (r: Contest)
    requires ValidGame(g) && Sound(g, returning, c) && cost == MoveCosts(g)
    ensures r == Step(g, returning, t, c)
  {
    var won, lost := false, false;
    var ours, theirs := c.ours, c.theirs;
    var found := c.found + c.layer.Keys;
    var next, ourNext, theirNext := ExpandContest(g, returning, t, cost, c.layer, found);
    if |ours| + |ourNext| < |theirs| {
      lost := true;
    }
    if |theirs| + |theirNext| < |ours| {
      won := true;
    }
    if !lost && !won {
      ours := ours + ourNext;
      theirs := theirs + theirNext;
    }
    r := Contest(next, found, ours, theirs, won, lost);
  }

  /** The fill from one exceptional cell (lines 35-83). */
  method ContestSquare(g: Game, returning: set<nat>, t: Tuning, ex: Position) returns (c: Contest)
    requires ValidGame(g) && OnMap(g.board, ex)
    ensures Sound(g, returning, c)
    ensures c == RunFill(g, returning, t, Start(ex))
  {
    var cost := MoveCosts(g);
    c := Start(ex);
    while !c.won && !c.lost && c.layer != map[]
      invariant Sound(g, returning, c)
      invariant RunFill(g, returning, t, c) == RunFill(g, returning, t, Start(ex))
      decreases |Grid(g.board) - c.found|
    {
      StepKeepsSound(g, returning, t, c);
      StepShrinks(g, returning, t, c);
      c := Round(g, returning, t, cost, c);
    }
  }

  // ---------------------------------------------------------------------
  // The ships that head for a won cell (lines 85-119)

  /** The ships standing on the cells counted for us. */
  function ShipsOn(g: Game, cells: set<Position>): (r: set<Ship>)
    ensures forall s :: s in r <==> exists p :: p in cells && g.cells(p).ship == Some(s)
  {
    set p | p in cells && g.cells(p).ship.Some? :: g.cells(p).ship.value
  }

  /** Our ships on the map that are not returning: the only ships the
      handler may move. */
  function Contenders(g: Game, returning: set<nat>): (r: set<Ship>)
    requires ValidMap(g.board)
    ensures forall s :: s in r ==> s.owner == g.me.id && s.id !in returning
  {
    set p | p in Grid(g.board) && OurShipAt(g, returning, p) :: g.cells(p).ship.value
  }

  /** The ships of a sound fill's counted cells are contenders. */
  lemma CountedAreContenders(g: Game, returning: set<nat>, c: Contest)
    requires ValidGame(g) && Sound(g, returning, c)
    ensures ShipsOn(g, c.ours) <= Contenders(g, returning)
  {
    forall s | s in ShipsOn(g, c.ours) ensures s in Contenders(g, returning) {
      var p :| p in c.ours && g.cells(p).ship == Some(s);
      assert p in Grid(g.board) && OurShipAt(g, returning, p);
    }
  }

  /** A ship's distance to the won cell. */
  function ToTarget(m: GameMap, ex: Position, s: Ship): int
  {
    CalculateDistance(m, s.position, ex)
  }

  /** The comparator of lines 88-93: distance to the cell, and for the same
      ship the halite carried. */
  function CompareShips(m: GameMap, ex: Position, a: Ship, b: Ship): int
  {
    if a != b then Preferences.CompareInts(ToTarget(m, ex, a), ToTarget(m, ex, b))
    else Preferences.CompareInts(a.halite, b.halite)
  }

  /** The halite tiebreak is never what decides: a ship compared with
      itself ties on halite as it does on distance, so the comparator is
      the comparison of distances alone. */
  lemma CompareShipsByDistance(m: GameMap, ex: Position, a: Ship, b: Ship)
    ensures CompareShips(m, ex, a, b) == Preferences.CompareInts(ToTarget(m, ex, a), ToTarget(m, ex, b))
    ensures CompareShips(m, ex, a, b) <= 0 <==> ToTarget(m, ex, a) <= ToTarget(m, ex, b)
  {
  }

  predicate Distinct(list: seq<Ship>)
  {
    forall i, j :: 0 <= i < j < |list| ==> list[i] != list[j]
  }

  /** Distances along the list never decrease. */
  predicate NearestFirst(m: GameMap, ex: Position, list: seq<Ship>)
  {
    forall i, j :: 0 <= i < j < |list| ==> ToTarget(m, ex, list[i]) <= ToTarget(m, ex, list[j])
  }

  /** No ship of the list is farther than a ship still to be placed. */
  predicate NoFartherThan(m: GameMap, ex: Position, list: seq<Ship>, rest: set<Ship>)
  {
    forall i, t :: 0 <= i < |list| && t in rest ==> ToTarget(m, ex, list[i]) <= ToTarget(m, ex, t)
  }

  /** A nearest ship of a non-empty set. */
  method Nearest(m: GameMap, ex: Position, ships: set<Ship>) returns (s: Ship)
    requires ships != {}
    ensures s in ships
    ensures forall t :: t in ships ==> ToTarget(m, ex, s) <= ToTarget(m, ex, t)
  {
    s :| s in ships;
    var rest := ships - {s};
    while rest != {}
      invariant s in ships && rest <= ships
      invariant forall t :: t in ships && t !in rest ==> ToTarget(m, ex, s) <= ToTarget(m, ex, t)
      decreases |rest|
    {
      var t :| t in rest;
      if ToTarget(m, ex, t) < ToTarget(m, ex, s) {
        s := t;
      }
      rest := rest - {t};
    }
  }

  /** Appending a nearest remaining ship keeps the list distinct, nearest
      first and no farther than what remains. */
  lemma AppendNearest(m: GameMap, ex: Position, list: seq<Ship>, rest: set<Ship>, s: Ship)
    requires s in rest && forall t :: t in rest ==> ToTarget(m, ex, s) <= ToTarget(m, ex, t)
    requires forall t :: t in list ==> t !in rest
    requires Distinct(list) && NearestFirst(m, ex, list) && NoFartherThan(m, ex, list, rest)
    ensures Distinct(list + [s]) && NearestFirst(m, ex, list + [s])
    ensures NoFartherThan(m, ex, list + [s], rest - {s})
  {
  }

  /** ourShips.sort(...) over some listing of the counted ships: each ship
      once, in comparator order. Equally distant ships come in either
      order, as the source's listing of a layer is a hash-map order. */
  method OrderByDistance(m: GameMap, ex: Position, ships: set<Ship>) returns (list: seq<Ship>)
    ensures forall s :: s in list <==> s in ships
    ensures |list| == |ships| && Distinct(list)
    ensures forall i, j :: 0 <= i < j < |list| ==> CompareShips(m, ex, list[i], list[j]) <= 0
  {
    list := [];
    var rest := ships;
    while rest != {}
      invariant rest <= ships
      invariant forall s :: s in ships <==> s in list || s in rest
      invariant forall s :: s in list ==> s !in rest
      invariant |list| + |rest| == |ships|
      invariant Distinct(list) && NearestFirst(m, ex, list) && NoFartherThan(m, ex, list, rest)
      decreases |rest|
    {
      var s := Nearest(m, ex, rest);
      AppendNearest(m, ex, list, rest, s);
      list := list + [s];
      rest := rest - {s};
    }
    forall i, j | 0 <= i < j < |list| ensures CompareShips(m, ex, list[i], list[j]) <= 0 {
      CompareShipsByDistance(m, ex, list[i], list[j]);
    }
  }

  /** The direction chosen for one ship of a won contest (lines 98-117):
      a safe step toward the cell; next to it, any unoccupied step toward
      it; failing both, a safe stay, with the same unsafe retry again. */
  function Advance(g: Game, ship: Ship, ex: Position, occupied: set<Position>): Option<Direction>
    requires ValidMap(g.board)
  {
    var near := CalculateDistance(g.board, ship.position, ex) <= 1;
    var first := Toward(g, ship, ex, occupied);
    var second := if first.None? && near then TowardUnsafe(g, ship, ex, occupied) else first;
    if second.Some? then second
    else
      var stay := Toward(g, ship, ship.position, occupied);
      if stay.None? && near then TowardUnsafe(g, ship, ex, occupied) else stay
  }

  /** What a won contest asks of one ship. A safe step toward the cell is
      taken when there is one; otherwise, next to the cell, an unoccupied
      step toward it; otherwise the ship stays when its own cell is free
      and visitable. The retry of lines 111-114 repeats a call that has
      already failed, so it never changes the outcome. */
  lemma AdvanceCases(g: Game, ship: Ship, ex: Position, occupied: set<Position>)
    requires ValidMap(g.board) && OnMap(g.board, ship.position)
    ensures var r := Advance(g, ship, ex, occupied);
      && (Toward(g, ship, ex, occupied).Some? ==> r == Toward(g, ship, ex, occupied))
      && (r.Some? ==> DirectionalOffset(g.board, ship.position, r.value) !in occupied)
      && (r.Some? && r.value != Still ==> r.value in GetUnsafeMoves(g.board, ship.position, ex))
      && (r.None? ==> ship.position in occupied || !CanVisit(g, ship.position, ship))
      && (r == Some(Still) && ship.position != ex ==> ship.position !in occupied && CanVisit(g, ship.position, ship))
  {
    var m := g.board;
    var p := ship.position;
    OffsetStill(m, p);
    UnsafeMovesShape(m, p, ex);
    var ds := GetUnsafeMoves(m, p, ex);
    var safe := Filtered(g, p, occupied, VisitableBy(ship), ds);
    var loose := Filtered(g, p, occupied, Unoccupied, ds);
    var still := Filtered(g, p, occupied, VisitableBy(ship), [Still]);
    var r := Advance(g, ship, ex, occupied);
    if r.Some? {
      var d := r.value;
      if d in safe {
        FilteredMember(g, p, occupied, VisitableBy(ship), ds, d);
      } else if d in loose {
        FilteredMember(g, p, occupied, Unoccupied, ds, d);
      } else {
        assert d in still;
        FilteredMember(g, p, occupied, VisitableBy(ship), [Still], d);
      }
    } else {
      if Still !in still {
        FilteredMember(g, p, occupied, VisitableBy(ship), [Still], Still);
      }
    }
  }

  /** Lines 98-117 for one ship: navigate, and register the direction
      found, if any. */
  method AdvanceShip(mr: MoveRegister, ship: Ship, ex: Position) returns (r: Option<Direction>)
    requires mr.Valid()
    modifies mr
    ensures mr.Valid() && Evolved(old(mr.State()), mr.State(), {ship})
    ensures r == Advance(mr.game, ship, ex, old(mr.occupiedPositions))
    ensures r.None? || ship !in old(mr.remainingShips) ==> mr.State() == old(mr.State())
    ensures r.Some? && ship in old(mr.remainingShips) ==>
      ship !in mr.remainingShips && Move(mr.game.board, ship, r.value).destination in mr.occupiedPositions
  {
    r := AdvanceDirection(mr.game, ship, ex, mr.occupiedPositions);
    if r.Some? {
      var ok := mr.RegisterMove(ship, r.value);
    }
  }

  /** Lines 98-112: the direction a ship heading for the cell takes, if
      any, against the cells claimed so far. */
  method AdvanceDirection(g: Game, ship: Ship, ex: Position, occupied: set<Position>) returns (r: Option<Direction>)
    requires ValidMap(g.board)
    ensures r == Advance(g, ship, ex, occupied)
  {
    var near := CalculateDistance(g.board, ship.position, ex) <= 1;
    r := SafeStep(g, ship, ex, occupied);
    if r.None? && near {
      r := UnsafeStep(g, ship, ex, occupied);
    }
    if r.None? {
      r := SafeStep(g, ship, ship.position, occupied);
      if r.None? && near {
        r := UnsafeStep(g, ship, ex, occupied);
      }
    }
  }

  /** One ship of the loop of lines 94-118: skipped unless it was
      remaining when the contest was won. */
  method AdvanceListed(mr: MoveRegister, ship: Ship, ex: Position, remaining: set<Ship>, ghost all: set<Ship>)
    requires mr.Valid() && ship in all
    modifies mr
    ensures mr.Valid() && Evolved(old(mr.State()), mr.State(), all)
    ensures ship !in remaining ==> mr.State() == old(mr.State())
  {
    if ship in remaining {
      var r := AdvanceShip(mr, ship, ex);
      EvolvedWiden(old(mr.State()), mr.State(), {ship}, all);
    } else {
      EvolvedRefl(mr.State());
      EvolvedWiden(mr.State(), mr.State(), {}, all);
    }
  }

  /** The loop of lines 94-118 over the ordered ships: those that were
      remaining when the contest was won are advanced in turn; no other
      ship is moved and nothing else the register holds is undone. */
  method AdvanceAll(mr: MoveRegister, ships: seq<Ship>, ex: Position)
    requires mr.Valid()
    modifies mr
    ensures mr.Valid() && Evolved(old(mr.State()), mr.State(), set s | s in ships)
  {
    var remaining := mr.remainingShips;
    ghost var start := mr.State();
    ghost var all := set s | s in ships;
    EvolvedRefl(start);
    EvolvedWiden(start, start, {}, all);
    var i := 0;
    while i < |ships|
      invariant 0 <= i <= |ships|
      invariant mr.Valid() && Evolved(start, mr.State(), all)
    {
      ghost var before := mr.State();
      AdvanceListed(mr, ships[i], ex, remaining, all);
      EvolvedTrans(start, before, mr.State(), all);
      i := i + 1;
    }
  }

  // ---------------------------------------------------------------------
  // The scan over the map (lines 25-127)

  /** The contest from a cell starts sound and consistent, so it ends won,
      lost or with nowhere left to spread, and a win means more of our
      ships were counted than of theirs, each of ours a contender. */
  lemma ContestOutcome(g: Game, returning: set<nat>, t: Tuning, ex: Position)
    requires ValidGame(g) && OnMap(g.board, ex)
    ensures var r := RunFill(g, returning, t, Start(ex));
      && Sound(g, returning, r) && Consistent(r)
      && (r.won || r.lost || r.layer == map[])
      && (r.won ==> |r.theirs| < |r.ours| && ShipsOn(g, r.ours) <= Contenders(g, returning))
  {
    FillOutcome(g, returning, t, Start(ex));
    CountedAreContenders(g, returning, RunFill(g, returning, t, Start(ex)));
  }

  /** The body of the scan for one cell (lines 30-124): cells that are not
      exceptional are skipped; otherwise the fill decides, and on a win the
      counted ships head for the cell, nearest first. Only contenders
      move. */
  method ContestCell(mr: MoveRegister, haliteSum: int, returning: set<nat>, nearestEnemy: map<Position, int>, t: Tuning, p: Position)
    returns (c: Option<Contest>)
    requires mr.Valid() && OnMap(mr.game.board, p) && p in nearestEnemy
    modifies mr
    ensures mr.Valid() && Evolved(old(mr.State()), mr.State(), Contenders(mr.game, returning))
    ensures !Exceptional(mr.game, nearestEnemy, t, haliteSum, p) ==> c.None? && mr.State() == old(mr.State())
    ensures Exceptional(mr.game, nearestEnemy, t, haliteSum, p) ==> c == Some(RunFill(mr.game, returning, t, Start(p)))
    ensures c.Some? && !c.value.won ==> mr.State() == old(mr.State())
  {
    var g := mr.game;
    ghost var start := mr.State();
    ghost var all := Contenders(g, returning);
    if !Exceptional(g, nearestEnemy, t, haliteSum, p) {
      EvolvedRefl(start);
      EvolvedWiden(start, start, {}, all);
      return None;
    }
    var fill := ContestSquare(g, returning, t, p);
    c := Some(fill);
    if fill.won {
      ContestOutcome(g, returning, t, p);
      var ships := ShipsOn(g, fill.ours);
      var list := OrderByDistance(g.board, p, ships);
      AdvanceAll(mr, list, p);
      EvolvedWiden(start, mr.State(), (set s | s in list), all);
    } else {
      EvolvedRefl(start);
      EvolvedWiden(start, start, {}, all);
    }
  }

  /** One row of the scan (line 29). */
  method ContestRow(mr: MoveRegister, haliteSum: int, returning: set<nat>, nearestEnemy: map<Position, int>, t: Tuning, x: int)
    requires mr.Valid() && 0 <= x < mr.game.board.height && Grid(mr.game.board) <= nearestEnemy.Keys
    modifies mr
    ensures mr.Valid() && Evolved(old(mr.State()), mr.State(), Contenders(mr.game, returning))
  {
    ghost var start := mr.State();
    ghost var all := Contenders(mr.game, returning);
    EvolvedRefl(start);
    EvolvedWiden(start, start, {}, all);
    var y := 0;
    while y < mr.game.board.width
      invariant 0 <= y <= mr.game.board.width
      invariant mr.Valid() && Evolved(start, mr.State(), all)
    {
      ghost var before := mr.State();
      InGrid(mr.game.board, Position(x, y));
      var c := ContestCell(mr, haliteSum, returning, nearestEnemy, t, Position(x, y));
      EvolvedTrans(start, before, mr.State(), all);
      y := y + 1;
    }
  }

  /** getExceptionalSquaresMoves(game, moveRegister, haliteSum,
      returningShips): every cell is considered in row order, and only our
      ships that are not returning are given commands. */
  method GetExceptionalSquaresMoves(mr: MoveRegister, haliteSum: int, returning: set<nat>, nearestEnemy: map<Position, int>, t: Tuning)
    requires mr.Valid() && Grid(mr.game.board) <= nearestEnemy.Keys
    modifies mr
    ensures mr.Valid() && Evolved(old(mr.State()), mr.State(), Contenders(mr.game, returning))
  {
    ghost var start := mr.State();
    ghost var all := Contenders(mr.game, returning);
    EvolvedRefl(start);
    EvolvedWiden(start, start, {}, all);
    var x := 0;
    while x < mr.game.board.height
      invariant 0 <= x <= mr.game.board.height
      invariant mr.Valid() && Evolved(start, mr.State(), all)
    {
      ghost var before := mr.State();
      ContestRow(mr, haliteSum, returning, nearestEnemy, t, x);
      EvolvedTrans(start, before, mr.State(), all);
      x := x + 1;
    }
  }
}
