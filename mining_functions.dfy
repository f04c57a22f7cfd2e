/** The claim auction of MiningFunctions
    (bots/current_bot/mining/MiningFunctions.java): each round, ships claim
    the cell they score best among those they can reach and hold against
    every nearer rival; then, nearest claim first, ships whose plans are
    determined reserve their future cells and commit their first moves.
    Rounds repeat while a round commits something. The score tables, the
    penalty multipliers and the nearest-enemy table are given inputs. */
module Mining {
  import opened Wrappers
  import opened Geometry
  import opened World
  import opened ShipCommands
  import opened CommonFunctions
  import opened Tiebreakers
  import opened MoveRegistry
  import opened MultiTurnNavigation
  import opened MiningScores
  import opened Preferences

  /** SECOND_MINING_PENALTY: the factor a cell's score is multiplied by
      each time a miner commits to it. */
  const SecondMiningPenalty: real := 1.5

  /** What the auction reads and does not change: the per-ship tables of
      getMiningScores (scored cells, scores, intended mining turns), the
      nearest-enemy distance table, PLAN_HORIZON, the cells the caller rules
      out and the ids of ships forced to stay this turn. */
  datatype Context = Context(
    game: Game,
    present: (Ship, Position) -> bool,
    scores: (Ship, Position) -> Score,
    miningTurns: (Ship, Position) -> int,
    nearestEnemy: Position -> int,
    planHorizon: int,
    illegalPositions: set<Position>,
    forcedStayIds: set<nat>)

  type Reservations = map<int, map<Position, Ship>>

  // ---------------------------------------------------------------------
  // Scores and penalties

  function Scale(s: Score, k: real): Score
  {
    match s
    case Infinite => Infinite
    case Finite(v) => Finite(v * k)
  }

  /** `a < b` on doubles that may be +Infinity. */
  predicate Below(a: Score, b: Score)
  {
    a.Finite? && (b.Infinite? || a.value < b.value)
  }

  /** A cell's score for a ship, times the cell's penalty if it has one. */
  function Penalised(ctx: Context, penalty: map<Position, real>, ship: Ship, p: Position): Score
  {
    if p in penalty then Scale(ctx.scores(ship, p), penalty[p]) else ctx.scores(ship, p)
  }

  /** Penalties are products of SECOND_MINING_PENALTY, so never below 1. */
  predicate PenaltiesAtLeastOne(penalty: map<Position, real>)
  {
    forall p :: p in penalty ==> penalty[p] >= 1.0
  }

  /** Scores are collection-turn estimates, never negative. */
  ghost predicate NonNegativeScores(ctx: Context, ship: Ship)
  {
    forall p :: ctx.scores(ship, p).Finite? ==> ctx.scores(ship, p).value >= 0.0
  }

  lemma ScaleNotBelow(s: Score, k: real, b: Score)
    requires !Below(s, b) && k >= 1.0 && (s.Finite? ==> s.value >= 0.0)
    ensures !Below(Scale(s, k), b)
  {
    if s.Finite? {
      assert s.value * k - s.value == s.value * (k - 1.0);
    }
  }

  lemma NotBelowMonotone(a: Score, b: Score, c: Score)
    requires !Below(a, b) && (c == b || Below(c, b))
    ensures !Below(a, c)
  {
  }

  /** Multiplying a penalty by SECOND_MINING_PENALTY keeps it at least 1. */
  function Penalise(penalty: map<Position, real>, pos: Position): (r: map<Position, real>)
    ensures PenaltiesAtLeastOne(penalty) ==> PenaltiesAtLeastOne(r)
    ensures r.Keys == penalty.Keys + {pos}
    ensures forall p :: p in penalty && p != pos ==> r[p] == penalty[p]
    ensures pos in penalty ==> r[pos] == penalty[pos] * SecondMiningPenalty
    ensures pos !in penalty ==> r[pos] == SecondMiningPenalty
  {
    var before := if pos in penalty then penalty[pos] else 1.0;
    assert before >= 1.0 ==> before * SecondMiningPenalty >= 1.0;
    penalty[pos := before * SecondMiningPenalty]
  }

  // ---------------------------------------------------------------------
  // What a claim needs

  /** The navigator a ship builds toward a cell. */
  function ClaimQuery(ctx: Context, occupied: set<Position>, fpp: Reservations, ship: Ship, p: Position): Query
  {
    Query(ctx.game, ship, p, occupied, fpp, ctx.planHorizon, ctx.miningTurns(ship, p))
  }

  /** canNavigate of that navigator: some plan survives the search. */
  predicate Navigable(q: Query)
    requires ValidMap(q.game.board)
  {
    Search(q, [[q.ship.position]], 1, 0, false) != []
  }

  /** The distance a rival holding `p` is credited with: one more for a
      ship forced to stay. */
  function HolderDistance(ctx: Context, holder: Ship, p: Position): int
  {
    CalculateDistance(ctx.game.board, holder.position, p) + (if holder.id in ctx.forcedStayIds then 1 else 0)
  }

  /** A claim on `p` is free, or the ship is strictly nearer than its
      holder. */
  predicate CanClaim(ctx: Context, claims: map<Position, Ship>, ship: Ship, p: Position)
  {
    p in claims ==> CalculateDistance(ctx.game.board, ship.position, p) < HolderDistance(ctx, claims[p], p)
  }

  /** What a claim needs besides beating its holder: a scored, legal cell
      on the map that a navigator can reach. */
  predicate Claimable(ctx: Context, occupied: set<Position>, fpp: Reservations, ship: Ship, p: Position)
    requires ValidMap(ctx.game.board)
  {
    OnMap(ctx.game.board, p) && ctx.present(ship, p) && p !in ctx.illegalPositions
    && Navigable(ClaimQuery(ctx, occupied, fpp, ship, p))
  }

  predicate Acceptable(ctx: Context, occupied: set<Position>, fpp: Reservations, claims: map<Position, Ship>, ship: Ship, p: Position)
    requires ValidMap(ctx.game.board)
  {
    Claimable(ctx, occupied, fpp, ship, p) && CanClaim(ctx, claims, ship, p)
  }

  /** The running best of the scan: none with +Infinity, or an acceptable
      cell with its finite penalised score. */
  predicate Tracks(ctx: Context, occupied: set<Position>, fpp: Reservations, penalty: map<Position, real>,
                   claims: map<Position, Ship>, ship: Ship, best: Option<Position>, bestScore: Score)
    requires ValidMap(ctx.game.board)
  {
    (best.None? ==> bestScore == Infinite)
    && (best.Some? ==> bestScore.Finite? && bestScore == Penalised(ctx, penalty, ship, best.value)
                       && Acceptable(ctx, occupied, fpp, claims, ship, best.value))
  }

  /** `q` comes before (x, y) in the scan's row-major order. */
  predicate Before(q: Position, x: int, y: int)
  {
    q.x < x || (q.x == x && q.y < y)
  }

  /** Nothing scanned so far beats the running best (when scores are
      non-negative and penalties at least 1, which makes the unpenalised
      pre-check exact). */
  ghost predicate Beats(ctx: Context, occupied: set<Position>, fpp: Reservations, penalty: map<Position, real>,
                  claims: map<Position, Ship>, ship: Ship, bestScore: Score, x: int, y: int)
    requires ValidMap(ctx.game.board)
  {
    NonNegativeScores(ctx, ship) && PenaltiesAtLeastOne(penalty) ==>
      forall q :: OnMap(ctx.game.board, q) && Before(q, x, y) && Acceptable(ctx, occupied, fpp, claims, ship, q) ==>
        !Below(Penalised(ctx, penalty, ship, q), bestScore)
  }

  /** The running best scores strictly below every acceptable cell
      scanned before it: ties keep the earliest cell (when scores are
      non-negative and penalties at least 1). */
  ghost predicate First(ctx: Context, occupied: set<Position>, fpp: Reservations, penalty: map<Position, real>,
                        claims: map<Position, Ship>, ship: Ship, best: Option<Position>, bestScore: Score)
    requires ValidMap(ctx.game.board)
  {
    NonNegativeScores(ctx, ship) && PenaltiesAtLeastOne(penalty) && best.Some? ==>
      forall q :: OnMap(ctx.game.board, q) && Before(q, best.value.x, best.value.y) && Acceptable(ctx, occupied, fpp, claims, ship, q) ==>
        Below(bestScore, Penalised(ctx, penalty, ship, q))
  }

  /** A new best strictly below the old one is strictly below everything
      the old one was not above. */
  lemma BelowThrough(a: Score, b: Score, c: Score)
    requires Below(a, b) && !Below(c, b)
    ensures Below(a, c)
  {
  }

  // ---------------------------------------------------------------------
  // The claim phase (lines 139-196)

  /** One cell of a ship's scan (lines 153-178). */
  method ConsiderCell(ctx: Context, occupied: set<Position>, fpp: Reservations, penalty: map<Position, real>,
                      claims: map<Position, Ship>, ship: Ship, p: Position, best: Option<Position>, bestScore: Score)
    returns (newBest: Option<Position>, newScore: Score)
    requires ValidMap(ctx.game.board) && OnMap(ctx.game.board, p)
    requires Tracks(ctx, occupied, fpp, penalty, claims, ship, best, bestScore)
    ensures Tracks(ctx, occupied, fpp, penalty, claims, ship, newBest, newScore)
    ensures newScore == bestScore || Below(newScore, bestScore)
    ensures (newBest == best && newScore == bestScore) || (newBest == Some(p) && Below(newScore, bestScore))
    ensures NonNegativeScores(ctx, ship) && PenaltiesAtLeastOne(penalty) && Acceptable(ctx, occupied, fpp, claims, ship, p) ==>
      !Below(Penalised(ctx, penalty, ship, p), newScore)
  {
    newBest, newScore := best, bestScore;
    if !ctx.present(ship, p) {
      return;
    }
    var score := ctx.scores(ship, p);
    if !Below(score, bestScore) {
      if NonNegativeScores(ctx, ship) && PenaltiesAtLeastOne(penalty) && p in penalty {
        ScaleNotBelow(score, penalty[p], bestScore);
      }
      return;
    }
    if p in penalty {
      score := Scale(score, penalty[p]);
    }
    if !Below(score, bestScore) || p in ctx.illegalPositions {
      return;
    }
    var canClaim := true;
    var ourDistance := CalculateDistance(ctx.game.board, ship.position, p);
    if p in claims {
      var otherShip := claims[p];
      var theirDistance := CalculateDistance(ctx.game.board, otherShip.position, p);
      if otherShip.id in ctx.forcedStayIds {
        theirDistance := theirDistance + 1;
      }
      canClaim := ourDistance < theirDistance;
    }
    if canClaim {
      var navigator := new MultiTurnNavigator(ctx.game, ship, p, occupied, fpp, ctx.planHorizon, ctx.miningTurns(ship, p));
      if navigator.CanNavigate() {
        newBest, newScore := Some(p), score;
      }
    }
  }

  /** One row of the scan (the inner loop, over y < width). */
  method ScanRow(ctx: Context, occupied: set<Position>, fpp: Reservations, penalty: map<Position, real>,
                 claims: map<Position, Ship>, ship: Ship, x: int, best: Option<Position>, bestScore: Score)
    returns (newBest: Option<Position>, newScore: Score)
    requires ValidMap(ctx.game.board) && 0 <= x < ctx.game.board.height
    requires Tracks(ctx, occupied, fpp, penalty, claims, ship, best, bestScore)
    requires Beats(ctx, occupied, fpp, penalty, claims, ship, bestScore, x, 0)
    requires First(ctx, occupied, fpp, penalty, claims, ship, best, bestScore)
    requires best.Some? ==> Before(best.value, x, 0)
    ensures Tracks(ctx, occupied, fpp, penalty, claims, ship, newBest, newScore)
    ensures Beats(ctx, occupied, fpp, penalty, claims, ship, newScore, x + 1, 0)
    ensures First(ctx, occupied, fpp, penalty, claims, ship, newBest, newScore)
    ensures newBest.Some? ==> Before(newBest.value, x + 1, 0)
  {
    newBest, newScore := best, bestScore;
    for y := 0 to ctx.game.board.width
      invariant Tracks(ctx, occupied, fpp, penalty, claims, ship, newBest, newScore)
      invariant Beats(ctx, occupied, fpp, penalty, claims, ship, newScore, x, y)
      invariant First(ctx, occupied, fpp, penalty, claims, ship, newBest, newScore)
      invariant newBest.Some? ==> Before(newBest.value, x, y)
    {
      ghost var before := newScore;
      ghost var bestBefore := newBest;
      newBest, newScore := ConsiderCell(ctx, occupied, fpp, penalty, claims, ship, Position(x, y), newBest, newScore);
      if NonNegativeScores(ctx, ship) && PenaltiesAtLeastOne(penalty) && newBest != bestBefore {
        forall q | OnMap(ctx.game.board, q) && Before(q, x, y) && Acceptable(ctx, occupied, fpp, claims, ship, q)
          ensures Below(newScore, Penalised(ctx, penalty, ship, q))
        {
          BelowThrough(newScore, before, Penalised(ctx, penalty, ship, q));
        }
      }
      if NonNegativeScores(ctx, ship) && PenaltiesAtLeastOne(penalty) {
        forall q | OnMap(ctx.game.board, q) && Before(q, x, y + 1) && Acceptable(ctx, occupied, fpp, claims, ship, q)
          ensures !Below(Penalised(ctx, penalty, ship, q), newScore)
        {
          if q != Position(x, y) {
            NotBelowMonotone(Penalised(ctx, penalty, ship, q), before, newScore);
          }
        }
      }
    }
  }

  /** A ship's scan of the whole map (lines 146-180): the first cell, in
      row-major order, of least penalised score among the acceptable ones;
      none when every acceptable cell scores +Infinity. */
  method BestClaim(ctx: Context, occupied: set<Position>, fpp: Reservations, penalty: map<Position, real>,
                   claims: map<Position, Ship>, ship: Ship)
    returns (best: Option<Position>)
    requires Square(ctx.game.board)
    ensures best.Some? ==> Acceptable(ctx, occupied, fpp, claims, ship, best.value)
    ensures best.Some? ==> Penalised(ctx, penalty, ship, best.value).Finite?
    ensures NonNegativeScores(ctx, ship) && PenaltiesAtLeastOne(penalty) ==>
      forall q :: OnMap(ctx.game.board, q) && Acceptable(ctx, occupied, fpp, claims, ship, q) ==>
        if best.Some? then !Below(Penalised(ctx, penalty, ship, q), Penalised(ctx, penalty, ship, best.value))
        else Penalised(ctx, penalty, ship, q).Infinite?
    ensures NonNegativeScores(ctx, ship) && PenaltiesAtLeastOne(penalty) && best.Some? ==>
      forall q :: OnMap(ctx.game.board, q) && Before(q, best.value.x, best.value.y) && Acceptable(ctx, occupied, fpp, claims, ship, q) ==>
        Below(Penalised(ctx, penalty, ship, best.value), Penalised(ctx, penalty, ship, q))
  {
    best := None;
    var bestScore := Infinite;
    for x := 0 to ctx.game.board.height
      invariant Tracks(ctx, occupied, fpp, penalty, claims, ship, best, bestScore)
      invariant Beats(ctx, occupied, fpp, penalty, claims, ship, bestScore, x, 0)
      invariant First(ctx, occupied, fpp, penalty, claims, ship, best, bestScore)
      invariant best.Some? ==> Before(best.value, x, 0)
    {
      best, bestScore := ScanRow(ctx, occupied, fpp, penalty, claims, ship, x, best, bestScore);
    }
    assert Beats(ctx, occupied, fpp, penalty, claims, ship, bestScore, ctx.game.board.height, 0);
  }

  /** The claim tables of a round: the ships content with their claim,
      each claimed cell's holder, and each ship's last claim. */
  datatype Claims = Claims(happy: set<Ship>, claims: map<Position, Ship>, inverseClaims: map<Ship, Position>)

  /** A claim propagated from last turn: held by a forced stayer that held
      it in last turn's final claims. */
  predicate Propagated(ctx: Context, lastTurnClaims: map<Position, Ship>, s: Ship, p: Position)
  {
    s.id in ctx.forcedStayIds && p in lastTurnClaims && lastTurnClaims[p] == s
  }

  /** A ship's claim on `p` is claimable, or propagated from last turn. */
  ghost predicate Backed(ctx: Context, occupied: set<Position>, fpp: Reservations, lastTurnClaims: map<Position, Ship>, s: Ship, p: Position)
    requires ValidMap(ctx.game.board)
  {
    Claimable(ctx, occupied, fpp, s, p) || Propagated(ctx, lastTurnClaims, s, p)
  }

  /** The tables agree: a happy ship holds the cell of its last claim,
      and every last claim is still claimed, by the ship or a rival. */
  predicate Linked(st: Claims)
  {
    && (forall s :: s in st.happy ==> s in st.inverseClaims && st.inverseClaims[s] in st.claims && st.claims[st.inverseClaims[s]] == s)
    && (forall s :: s in st.inverseClaims ==> st.inverseClaims[s] in st.claims)
  }

  /** A ship whose last claim was taken over lost it to a ship strictly
      nearer than the distance it is credited with; the stale entry itself
      is not cleared. */
  predicate StaleBeaten(ctx: Context, st: Claims)
  {
    forall s :: s in st.inverseClaims && st.inverseClaims[s] in st.claims && st.claims[st.inverseClaims[s]] != s ==>
      CalculateDistance(ctx.game.board, st.claims[st.inverseClaims[s]].position, st.inverseClaims[s])
        < HolderDistance(ctx, s, st.inverseClaims[s])
  }

  /** Every claim and every last claim is backed. */
  ghost predicate Justified(ctx: Context, occupied: set<Position>, fpp: Reservations, lastTurnClaims: map<Position, Ship>, st: Claims)
    requires ValidMap(ctx.game.board)
  {
    && (forall p :: p in st.claims ==> Backed(ctx, occupied, fpp, lastTurnClaims, st.claims[p], p))
    && (forall s :: s in st.inverseClaims ==> Backed(ctx, occupied, fpp, lastTurnClaims, s, st.inverseClaims[s]))
  }

  /** What the claim phase keeps. */
  ghost predicate ClaimInv(ctx: Context, occupied: set<Position>, fpp: Reservations, lastTurnClaims: map<Position, Ship>, st: Claims)
    requires ValidMap(ctx.game.board)
  {
    Linked(st) && StaleBeaten(ctx, st) && Justified(ctx, occupied, fpp, lastTurnClaims, st)
  }

  /** The start of a round (lines 121-136): last turn's final claims of
      forced stayers are claimed again; nobody is happy yet. */
  method PropagateClaims(ctx: Context, occupied: set<Position>, fpp: Reservations, lastTurnClaims: map<Position, Ship>)
    returns (st: Claims)
    requires ValidMap(ctx.game.board)
    ensures ClaimInv(ctx, occupied, fpp, lastTurnClaims, st)
    ensures st.happy == {}
    ensures forall p :: p in st.claims <==> p in lastTurnClaims && lastTurnClaims[p].id in ctx.forcedStayIds
    ensures forall p :: p in st.claims ==> st.claims[p] == lastTurnClaims[p]
    ensures forall s :: s in st.inverseClaims ==> Propagated(ctx, lastTurnClaims, s, st.inverseClaims[s])
  {
    st := Claims({}, map[], map[]);
    var entries := lastTurnClaims.Keys;
    while entries != {}
      invariant entries <= lastTurnClaims.Keys
      invariant forall p :: p in st.claims <==> p in lastTurnClaims && p !in entries && lastTurnClaims[p].id in ctx.forcedStayIds
      invariant forall p :: p in st.claims ==> st.claims[p] == lastTurnClaims[p]
      invariant forall s :: s in st.inverseClaims ==> Propagated(ctx, lastTurnClaims, s, st.inverseClaims[s])
      invariant forall s :: s in st.inverseClaims ==> st.inverseClaims[s] in st.claims && st.claims[st.inverseClaims[s]] == s
      invariant st.happy == {}
      decreases |entries|
    {
      var p :| p in entries;
      entries := entries - {p};
      var s := lastTurnClaims[p];
      if s.id in ctx.forcedStayIds {
        st := Claims({}, st.claims[p := s], st.inverseClaims[s := p]);
      }
    }
  }


  /** The claim tables after `ship` claims `p`: the cell's holder, if any,
      stops being happy, and the ship becomes happy. */
  function Claim(st: Claims, ship: Ship, p: Position): Claims
  {
    Claims((if p in st.claims then st.happy - {st.claims[p]} else st.happy) + {ship},
           st.claims[p := ship], st.inverseClaims[ship := p])
  }

  /** Every acceptable cell of the ship scores +Infinity, so its scan
      finds nothing to claim. */
  ghost predicate Stuck(ctx: Context, occupied: set<Position>, fpp: Reservations, penalty: map<Position, real>,
                        claims: map<Position, Ship>, ship: Ship)
    requires ValidMap(ctx.game.board)
  {
    forall q :: OnMap(ctx.game.board, q) && Acceptable(ctx, occupied, fpp, claims, ship, q) ==>
      Penalised(ctx, penalty, ship, q).Infinite?
  }

  /** A ship stays stuck while the claims only grow and keep their holders:
      a cell claimed since was an unclaimed, hence acceptable, cell before. */
  lemma StuckKept(ctx: Context, occupied: set<Position>, fpp: Reservations, penalty: map<Position, real>,
                  claims: map<Position, Ship>, claims': map<Position, Ship>, ship: Ship)
    requires ValidMap(ctx.game.board)
    requires forall p :: p in claims ==> p in claims' && claims'[p] == claims[p]
    requires Stuck(ctx, occupied, fpp, penalty, claims, ship)
    ensures Stuck(ctx, occupied, fpp, penalty, claims', ship)
  {
    forall q | OnMap(ctx.game.board, q) && Acceptable(ctx, occupied, fpp, claims', ship, q)
      ensures Penalised(ctx, penalty, ship, q).Infinite?
    {
      assert Acceptable(ctx, occupied, fpp, claims, ship, q);
    }
  }

  /** One ship's turn in a claim pass (lines 145-194): an unhappy ship
      scans for its best cell and claims it. The displaced holder keeps its
      stale last claim. */
  method ClaimFor(ctx: Context, occupied: set<Position>, fpp: Reservations, penalty: map<Position, real>,
                  lastTurnClaims: map<Position, Ship>, st: Claims, ship: Ship)
    returns (next: Claims, claimed: Option<Position>)
    requires Square(ctx.game.board)
    requires ClaimInv(ctx, occupied, fpp, lastTurnClaims, st)
    ensures ClaimInv(ctx, occupied, fpp, lastTurnClaims, next)
    ensures ship in st.happy ==> claimed.None?
    ensures claimed.None? ==> next == st
    ensures claimed.Some? ==>
      ship !in st.happy && Acceptable(ctx, occupied, fpp, st.claims, ship, claimed.value)
      && next == Claim(st, ship, claimed.value)
    ensures ship !in st.happy && NonNegativeScores(ctx, ship) && PenaltiesAtLeastOne(penalty) ==>
      forall q :: OnMap(ctx.game.board, q) && Acceptable(ctx, occupied, fpp, st.claims, ship, q) ==>
        if claimed.Some? then !Below(Penalised(ctx, penalty, ship, q), Penalised(ctx, penalty, ship, claimed.value))
        else Penalised(ctx, penalty, ship, q).Infinite?
  {
    if ship in st.happy {
      return st, None;
    }
    claimed := BestClaim(ctx, occupied, fpp, penalty, st.claims, ship);
    if claimed.None? {
      return st, None;
    }
    next := Claim(st, ship, claimed.value);
    ClaimStep(ctx, occupied, fpp, lastTurnClaims, st, ship, claimed.value);
  }

  /** Claiming an acceptable cell keeps the claim invariant. */
  lemma ClaimStep(ctx: Context, occupied: set<Position>, fpp: Reservations, lastTurnClaims: map<Position, Ship>,
                  st: Claims, ship: Ship, p: Position)
    requires ValidMap(ctx.game.board)
    requires ClaimInv(ctx, occupied, fpp, lastTurnClaims, st)
    requires Acceptable(ctx, occupied, fpp, st.claims, ship, p)
    ensures ClaimInv(ctx, occupied, fpp, lastTurnClaims, Claim(st, ship, p))
  {
    ClaimKeepsLinked(st, ship, p);
    ClaimKeepsStaleBeaten(ctx, st, ship, p);
    var next := Claim(st, ship, p);
    assert Backed(ctx, occupied, fpp, lastTurnClaims, ship, p);
    forall q | q in next.claims
      ensures Backed(ctx, occupied, fpp, lastTurnClaims, next.claims[q], q)
    {
      if q != p {
        assert next.claims[q] == st.claims[q];
      }
    }
    forall s | s in next.inverseClaims
      ensures Backed(ctx, occupied, fpp, lastTurnClaims, s, next.inverseClaims[s])
    {
      if s != ship {
        assert next.inverseClaims[s] == st.inverseClaims[s];
      }
    }
  }

  lemma ClaimKeepsLinked(st: Claims, ship: Ship, p: Position)
    requires Linked(st)
    ensures Linked(Claim(st, ship, p))
  {
  }

  /** A newcomer nearer than a holder's credited distance is nearer than
      the credited distance of every ship the holder had already beaten. */
  lemma ClaimKeepsStaleBeaten(ctx: Context, st: Claims, ship: Ship, p: Position)
    requires Linked(st) && StaleBeaten(ctx, st) && CanClaim(ctx, st.claims, ship, p)
    ensures StaleBeaten(ctx, Claim(st, ship, p))
  {
    var next := Claim(st, ship, p);
    forall s | s in next.inverseClaims && next.inverseClaims[s] in next.claims && next.claims[next.inverseClaims[s]] != s
      ensures CalculateDistance(ctx.game.board, next.claims[next.inverseClaims[s]].position, next.inverseClaims[s])
            < HolderDistance(ctx, s, next.inverseClaims[s])
    {
      var q := next.inverseClaims[s];
      assert s != ship && q == st.inverseClaims[s];
      if q == p && st.claims[p] != s {
        assert CalculateDistance(ctx.game.board, st.claims[p].position, p) < HolderDistance(ctx, s, p);
      }
    }
  }

  /** One claim pass (lines 143-195): every remaining ship, in the set's
      order, takes its turn; a displacement asks for another pass. A pass
      that displaces nobody leaves every earlier claim with its holder and
      every happy ship happy. */
  method ClaimPass(ctx: Context, occupied: set<Position>, fpp: Reservations, penalty: map<Position, real>,
                   lastTurnClaims: map<Position, Ship>, remaining: set<Ship>, st: Claims)
    returns (next: Claims, needToIterate: bool)
    requires Square(ctx.game.board)
    requires ClaimInv(ctx, occupied, fpp, lastTurnClaims, st)
    ensures ClaimInv(ctx, occupied, fpp, lastTurnClaims, next)
    ensures st.claims.Keys <= next.claims.Keys && st.inverseClaims.Keys <= next.inverseClaims.Keys
    ensures forall s :: s in next.happy ==> s in st.happy || s in remaining
    ensures !needToIterate ==> st.happy <= next.happy
    ensures !needToIterate ==> forall p :: p in st.claims ==> next.claims[p] == st.claims[p]
    ensures !needToIterate && PenaltiesAtLeastOne(penalty) ==>
      forall s :: s in remaining && s !in next.happy && NonNegativeScores(ctx, s) ==>
        Stuck(ctx, occupied, fpp, penalty, next.claims, s)
  {
    next := st;
    needToIterate := false;
    var rest := remaining;
    while rest != {}
      invariant rest <= remaining
      invariant ClaimInv(ctx, occupied, fpp, lastTurnClaims, next)
      invariant st.claims.Keys <= next.claims.Keys && st.inverseClaims.Keys <= next.inverseClaims.Keys
      invariant forall s :: s in next.happy ==> s in st.happy || s in remaining
      invariant !needToIterate ==> st.happy <= next.happy
      invariant !needToIterate ==> forall p :: p in st.claims ==> next.claims[p] == st.claims[p]
      invariant !needToIterate && PenaltiesAtLeastOne(penalty) ==>
        forall s :: s in remaining && s !in rest && s !in next.happy && NonNegativeScores(ctx, s) ==>
          Stuck(ctx, occupied, fpp, penalty, next.claims, s)
      decreases |rest|
    {
      var ship :| ship in rest;
      rest := rest - {ship};
      var displaced;
      ghost var before := next;
      next, displaced := ClaimTurn(ctx, occupied, fpp, penalty, lastTurnClaims, next, ship);
      if !needToIterate && !displaced && PenaltiesAtLeastOne(penalty) {
        forall s | s in remaining && s !in rest && s !in next.happy && NonNegativeScores(ctx, s)
          ensures Stuck(ctx, occupied, fpp, penalty, next.claims, s)
        {
          if s != ship {
            StuckKept(ctx, occupied, fpp, penalty, before.claims, next.claims, s);
          }
        }
      }
      needToIterate := needToIterate || displaced;
    }
  }

  /** ClaimFor, and whether the claimed cell had a holder (lines 181-186). */
  method ClaimTurn(ctx: Context, occupied: set<Position>, fpp: Reservations, penalty: map<Position, real>,
                   lastTurnClaims: map<Position, Ship>, st: Claims, ship: Ship)
    returns (next: Claims, displaced: bool)
    requires Square(ctx.game.board)
    requires ClaimInv(ctx, occupied, fpp, lastTurnClaims, st)
    ensures ClaimInv(ctx, occupied, fpp, lastTurnClaims, next)
    ensures st.claims.Keys <= next.claims.Keys && st.inverseClaims.Keys <= next.inverseClaims.Keys
    ensures forall s :: s in st.inverseClaims && s != ship ==> next.inverseClaims[s] == st.inverseClaims[s]
    ensures forall s :: s in next.happy ==> s in st.happy || s == ship
    ensures !displaced ==> st.happy <= next.happy
    ensures !displaced ==> forall p :: p in st.claims ==> next.claims[p] == st.claims[p]
    ensures ship in st.happy ==> next == st && !displaced
    ensures ship !in st.happy && NonNegativeScores(ctx, ship) && PenaltiesAtLeastOne(penalty) ==>
      ship in next.happy || Stuck(ctx, occupied, fpp, penalty, next.claims, ship)
  {
    var claimed;
    next, claimed := ClaimFor(ctx, occupied, fpp, penalty, lastTurnClaims, st, ship);
    displaced := false;
    if claimed.Some? {
      ClaimGrows(st, ship, claimed.value);
      displaced := claimed.value in st.claims;
    }
  }

  /** What a claim changes: only the claiming ship's last claim, and
      without a displacement no holder and no happy ship. */
  lemma ClaimGrows(st: Claims, ship: Ship, p: Position)
    ensures st.claims.Keys <= Claim(st, ship, p).claims.Keys
    ensures st.inverseClaims.Keys <= Claim(st, ship, p).inverseClaims.Keys
    ensures forall s :: s in st.inverseClaims && s != ship ==> Claim(st, ship, p).inverseClaims[s] == st.inverseClaims[s]
    ensures Claim(st, ship, p).happy <= st.happy + {ship}
    ensures p !in st.claims ==> st.happy <= Claim(st, ship, p).happy
    ensures p !in st.claims ==> forall q :: q in st.claims ==> Claim(st, ship, p).claims[q] == st.claims[q]
  {
  }

  /** The claim phase (lines 121-196): last turn's claims of forced
      stayers, then passes until one displaces nobody, for at most `fuel`
      passes. When the passes converge the auction is stable: every
      remaining ship is happy or has no acceptable cell of finite score, so
      one more pass would change nothing. */
  method ClaimPhase(ctx: Context, occupied: set<Position>, fpp: Reservations, penalty: map<Position, real>,
                    lastTurnClaims: map<Position, Ship>, remaining: set<Ship>, fuel: nat)
    returns (st: Claims, converged: bool)
    requires Square(ctx.game.board)
    ensures ClaimInv(ctx, occupied, fpp, lastTurnClaims, st)
    ensures forall p :: p in lastTurnClaims && lastTurnClaims[p].id in ctx.forcedStayIds ==> p in st.claims
    ensures st.happy <= remaining
    ensures converged && PenaltiesAtLeastOne(penalty) ==>
      forall s :: s in remaining && s !in st.happy && NonNegativeScores(ctx, s) ==>
        Stuck(ctx, occupied, fpp, penalty, st.claims, s)
  {
    st := PropagateClaims(ctx, occupied, fpp, lastTurnClaims);
    var needToIterate := true;
    var passes := fuel;
    while needToIterate
      invariant ClaimInv(ctx, occupied, fpp, lastTurnClaims, st)
      invariant forall p :: p in lastTurnClaims && lastTurnClaims[p].id in ctx.forcedStayIds ==> p in st.claims
      invariant st.happy <= remaining
      invariant !needToIterate && PenaltiesAtLeastOne(penalty) ==>
        forall s :: s in remaining && s !in st.happy && NonNegativeScores(ctx, s) ==>
          Stuck(ctx, occupied, fpp, penalty, st.claims, s)
      decreases passes
    {
      if passes == 0 {
        return st, false;
      }
      passes := passes - 1;
      st, needToIterate := ClaimPass(ctx, occupied, fpp, penalty, lastTurnClaims, remaining, st);
    }
    converged := true;
  }

  // ---------------------------------------------------------------------
  // The commit phase (lines 198-264)

  /** Every plan surviving the query's search stands on `p` at turn `t`. */
  ghost predicate Determined(q: Query, t: int, p: Position)
    requires ValidMap(q.game.board)
  {
    var plans := Search(q, [[q.ship.position]], 1, 0, false);
    plans != [] && Covers(plans, t) && forall k :: 0 <= k < |plans| ==> plans[k][t] == p
  }

  /** The navigator's determined table holds exactly the determined cells. */
  lemma DeterminedTable(nav: MultiTurnNavigator)
    requires nav.Valid()
    ensures forall t :: t in nav.determined ==> Determined(nav.query, t, nav.determined[t])
    ensures forall t, p :: Determined(nav.query, t, p) ==> t in nav.determined && nav.determined[t] == p
  {
    var plans := nav.plans;
    forall t | t in nav.determined
      ensures Determined(nav.query, t, nav.determined[t])
    {
      assert nav.canNavigate && Covers(plans, t);
      forall k | 0 <= k < |plans|
        ensures plans[k][t] == nav.determined[t]
      {
        OptionsAtMember(plans, t, plans[k][t]);
      }
    }
    forall t, p | Determined(nav.query, t, p)
      ensures t in nav.determined && nav.determined[t] == p
    {
      assert plans[0][t] == p && t in nav.options;
      forall x
        ensures x in OptionsAt(plans, t) <==> x == p
      {
        OptionsAtMember(plans, t, x);
      }
      assert OptionsAt(plans, t) == {p};
    }
  }

  /** Reservation `p` at turn `t` is taken. */
  predicate Reserved(fpp: Reservations, t: int, p: Position)
  {
    t in fpp && p in fpp[t]
  }

  /** Reservations only grow: no entry is dropped or handed to another
      ship. */
  ghost predicate Grows(a: Reservations, b: Reservations)
  {
    forall t, p :: Reserved(a, t, p) ==> Reserved(b, t, p) && b[t][p] == a[t][p]
  }

  lemma GrowsTrans(a: Reservations, b: Reservations, c: Reservations)
    requires Grows(a, b) && Grows(b, c)
    ensures Grows(a, c)
  {
  }

  /** `b` holds a reservation `a` does not. */
  ghost predicate Adds(a: Reservations, b: Reservations)
  {
    exists t, p :: Reserved(b, t, p) && !Reserved(a, t, p)
  }

  /** Over two growths, something is new exactly when one of them added
      something. */
  lemma AddsTrans(a: Reservations, b: Reservations, c: Reservations)
    requires Grows(a, b) && Grows(b, c)
    ensures Adds(a, c) <==> Adds(a, b) || Adds(b, c)
  {
    if Adds(a, c) {
      var t, p :| Reserved(c, t, p) && !Reserved(a, t, p);
      if Reserved(b, t, p) {
        assert Adds(a, b);
      } else {
        assert Adds(b, c);
      }
    }
    if Adds(a, b) {
      var t, p :| Reserved(b, t, p) && !Reserved(a, t, p);
      assert Reserved(c, t, p);
    }
    if Adds(b, c) {
      var t, p :| Reserved(c, t, p) && !Reserved(b, t, p);
      assert !Reserved(a, t, p);
    }
  }

  /** A determined cell of a plan no enemy can reach in time. */
  predicate Eligible(ctx: Context, determined: map<int, Position>, t: int)
  {
    t in determined && ctx.nearestEnemy(determined[t]) > t
  }

  /** The reservation loop (lines 224-236): every determined cell that no
      enemy can reach by its turn is reserved for the ship unless already
      reserved; `found` tells whether any reservation is new. */
  method Reserve(ctx: Context, determined: map<int, Position>, ship: Ship, fpp: Reservations)
    returns (next: Reservations, found: bool)
    ensures Grows(fpp, next)
    ensures forall t :: Eligible(ctx, determined, t) ==> Reserved(next, t, determined[t])
    ensures forall t, p :: Reserved(next, t, p) && !Reserved(fpp, t, p) ==>
      Eligible(ctx, determined, t) && determined[t] == p && next[t][p] == ship
    ensures found <==> exists t, p :: Reserved(next, t, p) && !Reserved(fpp, t, p)
  {
    next := fpp;
    found := false;
    var keys := determined.Keys;
    while keys != {}
      invariant keys <= determined.Keys
      invariant Grows(fpp, next)
      invariant forall t :: Eligible(ctx, determined, t) && t !in keys ==> Reserved(next, t, determined[t])
      invariant forall t, p :: Reserved(next, t, p) && !Reserved(fpp, t, p) ==>
        Eligible(ctx, determined, t) && t !in keys && determined[t] == p && next[t][p] == ship
      invariant found <==> exists t, p :: Reserved(next, t, p) && !Reserved(fpp, t, p)
      decreases |keys|
    {
      EmptyOrInhabited(keys);
      var t :| t in keys;
      keys := keys - {t};
      var p := determined[t];
      if ctx.nearestEnemy(p) > t {
        var slot := if t in next then next[t] else map[];
        if p !in slot {
          assert !Reserved(fpp, t, p);
          found := true;
          next := next[t := slot[p := ship]];
          assert Reserved(next, t, p);
        }
      }
    }
  }

  /** Some cell is determined for the first turn. */
  ghost predicate FirstStepAgreed(q: Query)
    requires ValidMap(q.game.board)
  {
    exists p :: Determined(q, 1, p)
  }

  /** Whether the navigator's first step is determined is whether it is
      agreed. */
  lemma FirstStepTable(nav: MultiTurnNavigator)
    requires nav.Valid()
    ensures nav.FirstMoveDetermined() <==> FirstStepAgreed(nav.query)
    ensures forall p :: Determined(nav.query, 1, p) ==> 1 in nav.determined && nav.determined[1] == p
  {
    DeterminedTable(nav);
    if nav.FirstMoveDetermined() {
      assert Determined(nav.query, 1, nav.determined[1]);
    }
  }

  /** The reservations of a navigator's plan (lines 218-238). */
  method ReserveFor(ctx: Context, nav: MultiTurnNavigator, ship: Ship, fpp: Reservations, foundDetermined: bool)
    returns (fppAfter: Reservations, foundAfter: bool)
    requires nav.Valid()
    ensures Grows(fpp, fppAfter)
    ensures forall t, p :: (Determined(nav.query, t, p) && ctx.nearestEnemy(p) > t) ==> Reserved(fppAfter, t, p)
    ensures forall t, p :: Reserved(fppAfter, t, p) && !Reserved(fpp, t, p) ==>
      fppAfter[t][p] == ship && ctx.nearestEnemy(p) > t && Determined(nav.query, t, p)
    ensures foundAfter <==> foundDetermined || exists t, p :: Reserved(fppAfter, t, p) && !Reserved(fpp, t, p)
  {
    DeterminedTable(nav);
    fppAfter, foundAfter := fpp, foundDetermined;
    if nav.AnyMovesDetermined() {
      var found;
      fppAfter, found := Reserve(ctx, nav.determined, ship, fpp);
      foundAfter := foundDetermined || found;
    } else {
      forall t, p | Determined(nav.query, t, p)
        ensures false
      {
      }
    }
  }

  /** The navigation of one ship toward its claim (lines 213-243): no
      step when no plan survives or when the first step is open and a
      reservation of this pass is new; otherwise firstMove with the
      longer-axis tiebreaker. */
  method PlanFor(ctx: Context, occupied: set<Position>, ship: Ship, pos: Position, fpp: Reservations, foundDetermined: bool)
    returns (fppAfter: Reservations, foundAfter: bool, step: Option<Result<Direction>>)
    requires ValidMap(ctx.game.board)
    ensures Planned(ctx, occupied, ship, pos, fpp, foundDetermined, fppAfter, foundAfter, step)
  {
    fppAfter, foundAfter, step := fpp, foundDetermined, None;
    var navigator := new MultiTurnNavigator(ctx.game, ship, pos, occupied, fpp, ctx.planHorizon, ctx.miningTurns(ship, pos));
    FirstStepTable(navigator);
    if navigator.CanNavigate() {
      fppAfter, foundAfter := ReserveFor(ctx, navigator, ship, fpp, foundDetermined);
      if navigator.FirstMoveDetermined() || !foundAfter {
        var d := navigator.FirstMove(MakeLongerAxis(ctx.game, ship, pos));
        step := Some(d);
      }
    }
  }

  /** What PlanFor promises, as one predicate. */
  ghost predicate Planned(ctx: Context, occupied: set<Position>, ship: Ship, pos: Position, fpp: Reservations, foundDetermined: bool,
                          fppAfter: Reservations, foundAfter: bool, step: Option<Result<Direction>>)
    requires ValidMap(ctx.game.board)
  {
    && Grows(fpp, fppAfter)
    && (forall t, p :: (Determined(ClaimQuery(ctx, occupied, fpp, ship, pos), t, p) && ctx.nearestEnemy(p) > t) ==>
          Reserved(fppAfter, t, p))
    && (forall t, p :: Reserved(fppAfter, t, p) && !Reserved(fpp, t, p) ==>
          fppAfter[t][p] == ship && ctx.nearestEnemy(p) > t && Determined(ClaimQuery(ctx, occupied, fpp, ship, pos), t, p))
    && (foundAfter <==> foundDetermined || exists t, p :: Reserved(fppAfter, t, p) && !Reserved(fpp, t, p))
    && (step.Some? <==>
          Navigable(ClaimQuery(ctx, occupied, fpp, ship, pos))
          && (FirstStepAgreed(ClaimQuery(ctx, occupied, fpp, ship, pos)) || !foundAfter))
    && (step.Some? && step.value.Err? ==> step.value.failure == MissingOptions)
    && (step.Some? && ctx.planHorizon >= 1 && ctx.miningTurns(ship, pos) > 0 ==> step.value.Ok?)
    && (forall p :: Determined(ClaimQuery(ctx, occupied, fpp, ship, pos), 1, p) ==>
          GetDirectionTo(ship.position, p).Some? && step == Some(Ok(GetDirectionTo(ship.position, p).value)))
    && (step.Some? && step.value.Ok? && Square(ctx.game.board) && ctx.game.board.width >= 3 && OnMap(ctx.game.board, ship.position) ==>
          step.value.value in GetUnsafeMoves(ctx.game.board, ship.position, pos))
  }

  /** The ships of a commit pass not yet visited are still remaining, or
      were forced to move by an earlier registration. */
  predicate Pending(l: Ledger, list: seq<Ship>, i: int)
  {
    forall k :: 0 <= k && i <= k < |list| ==> list[k] in l.remaining || list[k] in l.forced
  }

  lemma PendingStep(a: Ledger, b: Ledger, list: seq<Ship>, i: int)
    requires 0 <= i < |list| && Pending(a, list, i) && Evolved(a, b, {list[i]})
    requires forall j, k :: 0 <= j < k < |list| ==> list[j] != list[k]
    ensures Pending(b, list, i + 1)
  {
    forall k | i + 1 <= k < |list|
      ensures list[k] in b.remaining || list[k] in b.forced
    {
      assert list[k] != list[i];
    }
  }

  /** A subset that lost a member is smaller. */
  lemma Departed(gone: set<Ship>, before: set<Ship>, after: set<Ship>)
    requires after <= before
    requires forall s :: s in gone ==> s in before && s !in after
    ensures |after| <= |before|
    ensures gone != {} ==> |after| < |before|
  {
    SubsetNoLarger(after, before);
    if gone != {} {
      var s :| s in gone;
      SubsetSmaller(after, before, s);
    }
  }

  /** The static fields of MiningFunctions the auction updates. */
  class MiningFunctions {
    /** The final claims of the last round. */
    var lastTurnClaims: map<Position, Ship>
    /** The score a ship on each of our dropoffs would collect. */
    var dropoffMiningValue: map<Position, Score>

    /** A null lastTurnClaims reads as no claims. */
    constructor()
      ensures lastTurnClaims == map[] && dropoffMiningValue == map[]
    {
      lastTurnClaims := map[];
      dropoffMiningValue := map[];
    }

    /** One ship of a commit pass (lines 205-262). A ship with a claim
        records its score if it sits on one of our structures, and plans
        toward its claim; a step found is registered, raises the claimed
        cell's penalty and makes the claim final. */
    method CommitShip(ctx: Context, mr: MoveRegister, inverseClaims: map<Ship, Position>, ship: Ship,
                      penalty: map<Position, real>, fpp: Reservations, foundDetermined: bool,
                      finalClaims: map<Position, Ship>)
      returns (penaltyAfter: map<Position, real>, fppAfter: Reservations, foundAfter: bool,
               finalAfter: map<Position, Ship>, step: Option<Result<Direction>>, move: Option<Direction>, r: Result<()>)
      requires mr.Valid() && mr.game == ctx.game
      requires ship in mr.remainingShips || ship in mr.forcedMoves
      modifies this`dropoffMiningValue, mr
      ensures mr.Valid() && Evolved(old(mr.State()), mr.State(), {ship})
      ensures dropoffMiningValue ==
        if ship in inverseClaims && HasFriendlyStructure(ctx.game, ship.position)
        then old(dropoffMiningValue)[ship.position := Penalised(ctx, penalty, ship, inverseClaims[ship])]
        else old(dropoffMiningValue)
      ensures ship !in inverseClaims ==> fppAfter == fpp && foundAfter == foundDetermined && step.None?
      ensures ship in inverseClaims ==>
        Planned(ctx, old(mr.occupiedPositions), ship, inverseClaims[ship], fpp, foundDetermined, fppAfter, foundAfter, step)
      ensures step.None? ==> move.None? && r.Ok?
      ensures step.Some? && step.value.Err? ==> move.None? && r == Err(step.value.failure)
      ensures step.Some? && step.value.Ok? ==> move == Some(step.value.value) && r.Ok?
      ensures move.Some? ==>
        ship in inverseClaims && ship !in mr.remainingShips
        && penaltyAfter == Penalise(penalty, inverseClaims[ship])
        && finalAfter == finalClaims[inverseClaims[ship] := ship]
      ensures move.Some? && ship in old(mr.remainingShips) ==>
        Move(ctx.game.board, ship, move.value).destination in mr.occupiedPositions
      ensures move.None? ==> penaltyAfter == penalty && finalAfter == finalClaims && mr.State() == old(mr.State())
    {
      penaltyAfter, fppAfter, foundAfter, finalAfter, step, move, r := penalty, fpp, foundDetermined, finalClaims, None, None, Ok(());
      if ship !in inverseClaims {
        return;
      }
      var pos := inverseClaims[ship];
      if HasFriendlyStructure(ctx.game, ship.position) {
        dropoffMiningValue := dropoffMiningValue[ship.position := Penalised(ctx, penalty, ship, pos)];
      }
      fppAfter, foundAfter, step := PlanFor(ctx, mr.occupiedPositions, ship, pos, fpp, foundDetermined);
      if step.Some? {
        if step.value.Err? {
          r := Err(step.value.failure);
          return;
        }
        var ok := mr.RegisterMove(ship, step.value.value);
        assert ok;
        move := Some(step.value.value);
        penaltyAfter := Penalise(penalty, pos);
        finalAfter := finalClaims[pos := ship];
      }
    }

    /** CommitShip, with what a commit pass needs of it. */
    method Visit(ctx: Context, mr: MoveRegister, inverseClaims: map<Ship, Position>, ship: Ship,
                 penalty: map<Position, real>, fpp: Reservations, foundDetermined: bool,
                 finalClaims: map<Position, Ship>)
      returns (penaltyAfter: map<Position, real>, fppAfter: Reservations, foundAfter: bool,
               finalAfter: map<Position, Ship>, move: Option<Direction>, r: Result<()>)
      requires mr.Valid() && mr.game == ctx.game
      requires ship in mr.remainingShips || ship in mr.forcedMoves
      modifies this`dropoffMiningValue, mr
      ensures mr.Valid() && mr.game == ctx.game && Evolved(old(mr.State()), mr.State(), {ship})
      ensures Grows(fpp, fppAfter)
      ensures foundAfter <==> foundDetermined || Adds(fpp, fppAfter)
      ensures PenaltiesAtLeastOne(penalty) ==> PenaltiesAtLeastOne(penaltyAfter)
      ensures forall p :: p in penalty ==> p in penaltyAfter
      ensures forall p :: p in penaltyAfter ==> p in penalty || p in finalAfter
      ensures forall p :: p in finalClaims ==> p in finalAfter
      ensures mr.remainingShips <= old(mr.remainingShips)
      ensures move.Some? ==> ship in inverseClaims && ship !in mr.remainingShips
      ensures move.None? ==> mr.State() == old(mr.State())
      ensures r.Err? ==> move.None?
      ensures forall p :: p in finalAfter && (p !in finalClaims || finalAfter[p] != finalClaims[p]) ==>
        move.Some? && finalAfter[p] == ship && inverseClaims[ship] == p
      ensures forall p :: p in old(dropoffMiningValue) ==> p in dropoffMiningValue
      ensures forall p :: p in dropoffMiningValue ==> p in old(dropoffMiningValue) || HasFriendlyStructure(ctx.game, p)
      ensures r.Err? ==> r.failure == MissingOptions
    {
      var step;
      penaltyAfter, fppAfter, foundAfter, finalAfter, step, move, r :=
        CommitShip(ctx, mr, inverseClaims, ship, penalty, fpp, foundDetermined, finalClaims);
    }

    /** Every claim made final in a pass belongs to a committed ship whose
        claim it is. */
    ghost predicate FinalsCommitted(finalClaims: map<Position, Ship>, finalAfter: map<Position, Ship>,
                                    committed: set<Ship>, inverseClaims: map<Ship, Position>)
    {
      forall p :: p in finalAfter && (p !in finalClaims || finalAfter[p] != finalClaims[p]) ==>
        finalAfter[p] in committed && finalAfter[p] in inverseClaims && inverseClaims[finalAfter[p]] == p
    }

    /** Every committed ship was listed, has a claim, was remaining at the
        start and has left the remaining set. */
    ghost predicate CommittedOut(committed: set<Ship>, listed: set<Ship>, inverseClaims: map<Ship, Position>,
                                 startRemaining: set<Ship>, remaining: set<Ship>)
    {
      forall s :: s in committed ==> s in listed && s in inverseClaims && s in startRemaining && s !in remaining
    }

    lemma FinalsStep(finalClaims: map<Position, Ship>, f: map<Position, Ship>, f': map<Position, Ship>,
                     committed: set<Ship>, committed': set<Ship>, inverseClaims: map<Ship, Position>)
      requires FinalsCommitted(finalClaims, f, committed, inverseClaims) && committed <= committed'
      requires forall p :: p in f' && (p !in f || f'[p] != f[p]) ==>
        f'[p] in committed' && f'[p] in inverseClaims && inverseClaims[f'[p]] == p
      ensures FinalsCommitted(finalClaims, f', committed', inverseClaims)
    {
    }

    lemma CommittedStep(committed: set<Ship>, committed': set<Ship>, listed: set<Ship>, inverseClaims: map<Ship, Position>,
                        startRemaining: set<Ship>, remaining: set<Ship>, remaining': set<Ship>)
      requires CommittedOut(committed, listed, inverseClaims, startRemaining, remaining) && remaining' <= remaining
      requires forall s :: s in committed' && s !in committed ==>
        s in listed && s in inverseClaims && s in startRemaining && s !in remaining'
      ensures CommittedOut(committed', listed, inverseClaims, startRemaining, remaining')
    {
    }

    /** Visit for the ship at index `i` of a pass over `list`: the ships
        after it are still to be visited, and the register has evolved from
        `start` with only listed ships exempt. */
    method VisitListed(ctx: Context, mr: MoveRegister, inverseClaims: map<Ship, Position>, ship: Ship,
                       penalty: map<Position, real>, fpp: Reservations, foundDetermined: bool,
                       finalClaims: map<Position, Ship>,
                       ghost start: Ledger, ghost list: seq<Ship>, ghost i: int)
      returns (penaltyAfter: map<Position, real>, fppAfter: Reservations, foundAfter: bool,
               finalAfter: map<Position, Ship>, move: Option<Direction>, r: Result<()>)
      requires mr.Valid() && mr.game == ctx.game
      requires 0 <= i < |list| && ship == list[i] && Pending(mr.State(), list, i)
      requires forall j, k :: 0 <= j < k < |list| ==> list[j] != list[k]
      requires Evolved(start, mr.State(), set s | s in list)
      modifies this`dropoffMiningValue, mr
      ensures mr.Valid() && mr.game == ctx.game
      ensures Pending(mr.State(), list, i + 1) && Evolved(start, mr.State(), set s | s in list)
      ensures Grows(fpp, fppAfter)
      ensures foundAfter <==> foundDetermined || Adds(fpp, fppAfter)
      ensures PenaltiesAtLeastOne(penalty) ==> PenaltiesAtLeastOne(penaltyAfter)
      ensures forall p :: p in penalty ==> p in penaltyAfter
      ensures forall p :: p in penaltyAfter ==> p in penalty || p in finalAfter
      ensures forall p :: p in finalClaims ==> p in finalAfter
      ensures mr.remainingShips <= old(mr.remainingShips)
      ensures move.Some? ==> ship in inverseClaims && ship !in mr.remainingShips
      ensures move.None? ==> mr.State() == old(mr.State())
      ensures r.Err? ==> move.None?
      ensures forall p :: p in finalAfter && (p !in finalClaims || finalAfter[p] != finalClaims[p]) ==>
        move.Some? && finalAfter[p] == ship && inverseClaims[ship] == p
      ensures forall p :: p in old(dropoffMiningValue) ==> p in dropoffMiningValue
      ensures forall p :: p in dropoffMiningValue ==> p in old(dropoffMiningValue) || HasFriendlyStructure(ctx.game, p)
      ensures r.Err? ==> r.failure == MissingOptions
    {
      ghost var before := mr.State();
      assert ship in before.remaining || ship in before.forced;
      penaltyAfter, fppAfter, foundAfter, finalAfter, move, r :=
        Visit(ctx, mr, inverseClaims, ship, penalty, fpp, foundDetermined, finalClaims);
      PendingStep(before, mr.State(), list, i);
      EvolvedWiden(before, mr.State(), {ship}, set s | s in list);
      EvolvedTrans(start, before, mr.State(), set s | s in list);
    }

    /** One commit pass (lines 205-263) over the ships in the order given:
        each committed ship has left the remaining set and made its claim
        final; penalties stay at least 1; reservations only grow, and
        `foundAfter` tells whether any is new; the remaining ships stay as
        they were unless a ship is committed. */
    method CommitPass(ctx: Context, mr: MoveRegister, inverseClaims: map<Ship, Position>, list: seq<Ship>,
                      penalty: map<Position, real>, fpp: Reservations, foundDetermined: bool,
                      finalClaims: map<Position, Ship>)
      returns (penaltyAfter: map<Position, real>, fppAfter: Reservations, foundAfter: bool,
               finalAfter: map<Position, Ship>, foundAny: bool, r: Result<()>, ghost committed: set<Ship>)
      requires mr.Valid() && mr.game == ctx.game
      requires forall i :: 0 <= i < |list| ==> list[i] in mr.remainingShips
      requires forall i, j :: 0 <= i < j < |list| ==> list[i] != list[j]
      modifies this`dropoffMiningValue, mr
      ensures mr.Valid() && mr.game == ctx.game
      ensures PassInv(mr.State(), set s | s in list, old(mr.State()), inverseClaims, fpp, fppAfter,
                      foundDetermined, foundAfter, foundAny, committed, penalty, penaltyAfter, finalClaims, finalAfter,
                      old(dropoffMiningValue), dropoffMiningValue, ctx.game)
      ensures foundAny ==> |mr.remainingShips| < |old(mr.remainingShips)|
      ensures r.Err? ==> r.failure == MissingOptions
    {
      penaltyAfter, fppAfter, foundAfter, finalAfter, foundAny, r := penalty, fpp, foundDetermined, finalClaims, false, Ok(());
      ghost var listed := set s | s in list;
      ghost var start := mr.State();
      ghost var dropoffStart := dropoffMiningValue;
      committed := {};
      EvolvedRefl(start);
      var i := 0;
      while i < |list|
        invariant 0 <= i <= |list|
        invariant mr.Valid() && mr.game == ctx.game
        invariant r.Err? ==> r.failure == MissingOptions
        invariant i < |list| ==> Pending(mr.State(), list, i)
        invariant PassInv(mr.State(), listed, start, inverseClaims, fpp, fppAfter, foundDetermined, foundAfter,
                          foundAny, committed, penalty, penaltyAfter, finalClaims, finalAfter, dropoffStart, dropoffMiningValue,
                          ctx.game)
      {
        var rShip;
        penaltyAfter, fppAfter, foundAfter, finalAfter, foundAny, rShip, committed :=
          PassStep(ctx, mr, inverseClaims, list, i, penalty, fpp, foundDetermined, finalClaims,
                   penaltyAfter, fppAfter, foundAfter, finalAfter, foundAny, listed, start, committed, dropoffStart);
        if rShip.Err? {
          r := rShip;
          i := |list|;
        } else {
          i := i + 1;
        }
      }
      Departed(committed, start.remaining, mr.remainingShips);
    }

    /** The state of a commit pass over the `listed` ships: the register
        has evolved from `start` with the listed ships exempt, reservations
        have grown and
        `foundAfter` tells whether any is new, nothing has changed unless a
        ship was committed, and every final claim made in the pass belongs
        to a committed ship. */
    ghost predicate PassInv(l: Ledger, listed: set<Ship>, start: Ledger,
                            inverseClaims: map<Ship, Position>, fpp: Reservations, fppAfter: Reservations,
                            foundDetermined: bool, foundAfter: bool, foundAny: bool, committed: set<Ship>,
                            penalty: map<Position, real>, penaltyAfter: map<Position, real>,
                            finalClaims: map<Position, Ship>, finalAfter: map<Position, Ship>,
                            dropoffStart: map<Position, Score>, dropoff: map<Position, Score>, game: Game)
    {
      && Evolved(start, l, listed)
      && Grows(fpp, fppAfter)
      && (foundAfter <==> foundDetermined || Adds(fpp, fppAfter))
      && (foundAny ==> committed != {})
      && (!foundAny ==> l.remaining == start.remaining)
      && (PenaltiesAtLeastOne(penalty) ==> PenaltiesAtLeastOne(penaltyAfter))
      && (forall p :: p in penalty ==> p in penaltyAfter)
      && (forall p :: p in penaltyAfter ==> p in penalty || p in finalAfter)
      && CommittedOut(committed, listed, inverseClaims, start.remaining, l.remaining)
      && (forall p :: p in finalClaims ==> p in finalAfter)
      && FinalsCommitted(finalClaims, finalAfter, committed, inverseClaims)
      && (forall p :: p in dropoffStart ==> p in dropoff)
      && (forall p :: p in dropoff ==> p in dropoffStart || HasFriendlyStructure(game, p))
    }

    /** The body of the pass for list[i]; a ship that fails leaves the
        pass's values as they were. */
    method PassStep(ctx: Context, mr: MoveRegister, inverseClaims: map<Ship, Position>, list: seq<Ship>, i: int,
                    penalty: map<Position, real>, fpp: Reservations, foundDetermined: bool, finalClaims: map<Position, Ship>,
                    penaltyAfter: map<Position, real>, fppAfter: Reservations, foundAfter: bool,
                    finalAfter: map<Position, Ship>, foundAny: bool,
                    ghost listed: set<Ship>, ghost start: Ledger, ghost committed: set<Ship>, ghost dropoffStart: map<Position, Score>)
      returns (penaltyNext: map<Position, real>, fppNext: Reservations, foundNext: bool,
               finalNext: map<Position, Ship>, foundAnyNext: bool, r: Result<()>, ghost committedNext: set<Ship>)
      requires mr.Valid() && mr.game == ctx.game && 0 <= i < |list|
      requires forall j, k :: 0 <= j < k < |list| ==> list[j] != list[k]
      requires listed == set s | s in list
      requires forall k :: 0 <= k < |list| ==> list[k] in start.remaining
      requires Pending(mr.State(), list, i)
      requires PassInv(mr.State(), listed, start, inverseClaims, fpp, fppAfter, foundDetermined, foundAfter,
                       foundAny, committed, penalty, penaltyAfter, finalClaims, finalAfter, dropoffStart, dropoffMiningValue,
                       ctx.game)
      modifies this`dropoffMiningValue, mr
      ensures mr.Valid() && mr.game == ctx.game
      ensures Pending(mr.State(), list, i + 1)
      ensures PassInv(mr.State(), listed, start, inverseClaims, fpp, fppNext, foundDetermined, foundNext,
                      foundAnyNext, committedNext, penalty, penaltyNext, finalClaims, finalNext, dropoffStart, dropoffMiningValue,
                      ctx.game)
      ensures r.Err? ==> r.failure == MissingOptions
    {
      ghost var before := mr.State();
      var move;
      penaltyNext, fppNext, foundNext, finalNext, move, r :=
        VisitListed(ctx, mr, inverseClaims, list[i], penaltyAfter, fppAfter, foundAfter, finalAfter, start, list, i);
      GrowsTrans(fpp, fppAfter, fppNext);
      AddsTrans(fpp, fppAfter, fppNext);
      if r.Err? {
        CommittedStep(committed, committed, listed, inverseClaims, start.remaining, before.remaining, mr.remainingShips);
        penaltyNext, fppNext, foundNext, finalNext, foundAnyNext, committedNext :=
          penaltyAfter, fppAfter, foundAfter, finalAfter, foundAny, committed;
        return;
      }
      committedNext := if move.Some? then committed + {list[i]} else committed;
      CommittedStep(committed, committedNext, listed, inverseClaims, start.remaining, before.remaining, mr.remainingShips);
      FinalsStep(finalClaims, finalAfter, finalNext, committed, committedNext, inverseClaims);
      foundAnyNext := foundAny || move.Some?;
    }

    /** A commit pass over the remaining ships sorted by
        PreferencesComparator (lines 200-204). */
    method SortedPass(ctx: Context, mr: MoveRegister, inverseClaims: map<Ship, Position>,
                      penalty: map<Position, real>, fpp: Reservations, finalClaims: map<Position, Ship>)
      returns (penaltyAfter: map<Position, real>, fppAfter: Reservations, foundDetermined: bool,
               finalAfter: map<Position, Ship>, foundAny: bool, r: Result<()>)
      requires mr.Valid() && mr.game == ctx.game
      modifies this`dropoffMiningValue, mr
      ensures mr.Valid() && mr.game == ctx.game && Evolved(old(mr.State()), mr.State(), old(mr.remainingShips))
      ensures Grows(fpp, fppAfter)
      ensures foundDetermined <==> Adds(fpp, fppAfter)
      ensures |mr.remainingShips| <= |old(mr.remainingShips)|
      ensures foundAny ==> |mr.remainingShips| < |old(mr.remainingShips)|
      ensures !foundAny ==> mr.remainingShips == old(mr.remainingShips)
      ensures PenaltiesAtLeastOne(penalty) ==> PenaltiesAtLeastOne(penaltyAfter)
      ensures forall p :: p in penalty ==> p in penaltyAfter
      ensures forall p :: p in penaltyAfter ==> p in penalty || p in finalAfter
      ensures forall p :: p in finalClaims ==> p in finalAfter
      ensures forall p :: p in finalAfter && (p !in finalClaims || finalAfter[p] != finalClaims[p]) ==>
        finalAfter[p] in old(mr.remainingShips) && finalAfter[p] in inverseClaims && inverseClaims[finalAfter[p]] == p
        && finalAfter[p] !in mr.remainingShips
      ensures forall p :: p in old(dropoffMiningValue) ==> p in dropoffMiningValue
      ensures forall p :: p in dropoffMiningValue ==> p in old(dropoffMiningValue) || HasFriendlyStructure(ctx.game, p)
      ensures r.Err? ==> r.failure == MissingOptions
    {
      var shipsList := SortByPreference(ctx.game.board, inverseClaims, mr.remainingShips);
      ghost var before := mr.State();
      ghost var committed;
      penaltyAfter, fppAfter, foundDetermined, finalAfter, foundAny, r, committed :=
        CommitPass(ctx, mr, inverseClaims, shipsList, penalty, fpp, false, finalClaims);
      EvolvedWiden(before, mr.State(), (set s | s in shipsList), before.remaining);
      SubsetNoLarger(mr.remainingShips, before.remaining);
    }

    /** The passes of a finished commit phase, by the reservations before
        each and after the last: every pass but the last two added a
        reservation, the one before the last added none. */
    ghost predicate Settled(trail: seq<Reservations>)
    {
      && |trail| >= 3
      && (forall i :: 0 <= i < |trail| - 3 ==> Adds(trail[i], trail[i + 1]))
      && !Adds(trail[|trail| - 3], trail[|trail| - 2])
    }

    /** The trail of the commit phase so far: it starts at `fpp` and ends
        at `fppAfter`; `foundDetermined` tells whether the last pass added
        a reservation; while the loop goes on, every pass but the last
        added one; once it has stopped without failing, the trail is
        settled. */
    ghost predicate Trail(trail: seq<Reservations>, fpp: Reservations, fppAfter: Reservations,
                          foundDetermined: bool, loop: bool, ok: bool)
    {
      && |trail| >= 1 && trail[0] == fpp && trail[|trail| - 1] == fppAfter
      && (foundDetermined <==> |trail| == 1 || Adds(trail[|trail| - 2], trail[|trail| - 1]))
      && (loop ==> ok && forall i :: 0 <= i < |trail| - 2 ==> Adds(trail[i], trail[i + 1]))
      && (!loop && ok ==> Settled(trail))
    }

    /** One more pass extends the trail; the loop stops after the pass
        that follows a quiet one, or on a failure. */
    lemma TrailStep(trail: seq<Reservations>, fpp: Reservations, fppAfter: Reservations, foundDetermined: bool,
                    fppNext: Reservations, foundNext: bool, ok: bool)
      requires Trail(trail, fpp, fppAfter, foundDetermined, true, true)
      requires foundNext <==> Adds(fppAfter, fppNext)
      ensures Trail(trail + [fppNext], fpp, fppNext, foundNext, foundDetermined && ok, ok)
    {
      var t := trail + [fppNext];
      assert t[|t| - 2] == fppAfter;
      assert forall i :: 0 <= i < |trail| ==> t[i] == trail[i];
    }

    /** What the commit phase keeps from `start` on: the register has
        evolved with every remaining ship exempt, reservations have grown,
        fewer ships remain exactly when one was committed, penalties only
        grow and stay at least 1, every final claim is the claim of a ship
        committed since, and dropoff values are only added, on our
        structures. */
    ghost predicate PhaseInv(l: Ledger, start: Ledger, inverseClaims: map<Ship, Position>,
                             fpp: Reservations, fppAfter: Reservations, foundAny: bool,
                             penalty: map<Position, real>, penaltyAfter: map<Position, real>,
                             finalClaims: map<Position, Ship>,
                             dropoffStart: map<Position, Score>, dropoff: map<Position, Score>, game: Game)
    {
      && Evolved(start, l, start.remaining)
      && Grows(fpp, fppAfter)
      && |l.remaining| <= |start.remaining|
      && (foundAny ==> |l.remaining| < |start.remaining|)
      && (!foundAny ==> l.remaining == start.remaining)
      && (PenaltiesAtLeastOne(penalty) ==> PenaltiesAtLeastOne(penaltyAfter))
      && (forall p :: p in penalty ==> p in penaltyAfter)
      && (forall p :: p in penaltyAfter ==> p in penalty || p in finalClaims)
      && (forall p :: p in finalClaims ==>
            finalClaims[p] in start.remaining && finalClaims[p] !in l.remaining
            && finalClaims[p] in inverseClaims && inverseClaims[finalClaims[p]] == p)
      && (forall p :: p in dropoffStart ==> p in dropoff)
      && (forall p :: p in dropoff ==> p in dropoffStart || HasFriendlyStructure(game, p))
    }

    /** The commit phase (lines 198-265): passes over the remaining ships
        in claim order, until a pass after one that found no new
        reservation; at most `fuel` passes. `trail` holds the reservations
        before each pass and after the last: when the phase finishes, every
        pass but the last two added a reservation, the one before the last
        added none, and the last pass is the one more the source runs. */
    method CommitPhase(ctx: Context, mr: MoveRegister, inverseClaims: map<Ship, Position>,
                       penalty: map<Position, real>, fpp: Reservations, fuel: nat)
      returns (penaltyAfter: map<Position, real>, fppAfter: Reservations, finalClaims: map<Position, Ship>,
               foundAny: bool, finished: bool, r: Result<()>, ghost trail: seq<Reservations>)
      requires mr.Valid() && mr.game == ctx.game
      modifies this`dropoffMiningValue, mr
      ensures mr.Valid() && mr.game == ctx.game
      ensures PhaseInv(mr.State(), old(mr.State()), inverseClaims, fpp, fppAfter, foundAny, penalty, penaltyAfter,
                       finalClaims, old(dropoffMiningValue), dropoffMiningValue, ctx.game)
      ensures finished && r.Ok? ==> Settled(trail) && trail[0] == fpp && trail[|trail| - 1] == fppAfter
      ensures r.Err? ==> r.failure == MissingOptions
    {
      penaltyAfter, fppAfter, finalClaims, foundAny, finished, r := penalty, fpp, map[], false, true, Ok(());
      trail := [fpp];
      ghost var start := mr.State();
      ghost var dropoffStart := dropoffMiningValue;
      EvolvedRefl(start);
      var foundDetermined := true;
      var loop := true;
      var passes := fuel;
      while loop
        invariant mr.Valid() && mr.game == ctx.game
        invariant PhaseInv(mr.State(), start, inverseClaims, fpp, fppAfter, foundAny, penalty, penaltyAfter,
                           finalClaims, dropoffStart, dropoffMiningValue, ctx.game)
        invariant Trail(trail, fpp, fppAfter, foundDetermined, loop, finished && r.Ok?)
        invariant r.Err? ==> r.failure == MissingOptions
        decreases passes, loop
      {
        if passes == 0 {
          finished := false;
          loop := false;
        } else {
          passes := passes - 1;
          var last := !foundDetermined;
          var fppNext, foundNext;
          penaltyAfter, fppNext, finalClaims, foundAny, foundNext, r :=
            PhasePass(ctx, mr, inverseClaims, penalty, fpp, penaltyAfter, fppAfter, finalClaims, foundAny, start, dropoffStart);
          TrailStep(trail, fpp, fppAfter, foundDetermined, fppNext, foundNext, r.Ok?);
          trail, fppAfter, foundDetermined := trail + [fppNext], fppNext, foundNext;
          if last || r.Err? {
            loop := false;
          }
        }
      }
    }

    /** One pass of the commit phase; `foundDetermined` tells whether it
        added a reservation. */
    method PhasePass(ctx: Context, mr: MoveRegister, inverseClaims: map<Ship, Position>,
                     penalty: map<Position, real>, fpp: Reservations,
                     penaltyAfter: map<Position, real>, fppAfter: Reservations, finalClaims: map<Position, Ship>,
                     foundAny: bool, ghost start: Ledger, ghost dropoffStart: map<Position, Score>)
      returns (penaltyNext: map<Position, real>, fppNext: Reservations, finalNext: map<Position, Ship>,
               foundAnyNext: bool, foundDetermined: bool, r: Result<()>)
      requires mr.Valid() && mr.game == ctx.game
      requires PhaseInv(mr.State(), start, inverseClaims, fpp, fppAfter, foundAny, penalty, penaltyAfter,
                        finalClaims, dropoffStart, dropoffMiningValue, ctx.game)
      modifies this`dropoffMiningValue, mr
      ensures mr.Valid() && mr.game == ctx.game
      ensures PhaseInv(mr.State(), start, inverseClaims, fpp, fppNext, foundAnyNext, penalty, penaltyNext,
                       finalNext, dropoffStart, dropoffMiningValue, ctx.game)
      ensures foundDetermined <==> Adds(fppAfter, fppNext)
      ensures r.Err? ==> r.failure == MissingOptions
    {
      ghost var before := mr.State();
      var foundInPass;
      penaltyNext, fppNext, foundDetermined, finalNext, foundInPass, r :=
        SortedPass(ctx, mr, inverseClaims, penaltyAfter, fppAfter, finalClaims);
      EvolvedTrans(start, before, mr.State(), start.remaining);
      GrowsTrans(fpp, fppAfter, fppNext);
      foundAnyNext := foundAny || foundInPass;
    }

    /** getMiningCommandsOneRound (lines 112-267): the claim phase, then
        the commit phase; the round's final claims become lastTurnClaims.
        Each final claim belongs to a ship committed in this round, and is
        the cell it claimed: one it could claim then, or one propagated
        from the last round as a forced stayer. */
    method OneRound(ctx: Context, mr: MoveRegister, penalty: map<Position, real>, fpp: Reservations,
                    claimFuel: nat, commitFuel: nat)
      returns (penaltyAfter: map<Position, real>, fppAfter: Reservations, foundAny: bool, finished: bool, r: Result<()>)
      requires mr.Valid() && mr.game == ctx.game && Square(ctx.game.board)
      modifies this, mr
      ensures mr.Valid() && mr.game == ctx.game && Evolved(old(mr.State()), mr.State(), old(mr.remainingShips))
      ensures Grows(fpp, fppAfter)
      ensures |mr.remainingShips| <= |old(mr.remainingShips)|
      ensures foundAny ==> |mr.remainingShips| < |old(mr.remainingShips)|
      ensures !foundAny ==> mr.remainingShips == old(mr.remainingShips)
      ensures PenaltiesAtLeastOne(penalty) ==> PenaltiesAtLeastOne(penaltyAfter)
      ensures forall p :: p in penalty ==> p in penaltyAfter
      ensures forall p :: p in penaltyAfter ==> p in penalty || p in lastTurnClaims
      ensures finished && r.Ok? ==> forall p :: p in lastTurnClaims ==>
        lastTurnClaims[p] in old(mr.remainingShips) && lastTurnClaims[p] !in mr.remainingShips
        && Backed(ctx, old(mr.occupiedPositions), fpp, old(lastTurnClaims), lastTurnClaims[p], p)
      ensures forall p :: p in old(dropoffMiningValue) ==> p in dropoffMiningValue
      ensures forall p :: p in dropoffMiningValue ==> p in old(dropoffMiningValue) || HasFriendlyStructure(ctx.game, p)
      ensures r.Err? ==> r.failure == MissingOptions
    {
      penaltyAfter, fppAfter, foundAny, r := penalty, fpp, false, Ok(());
      var st, converged := ClaimPhase(ctx, mr.occupiedPositions, fpp, penalty, lastTurnClaims, mr.remainingShips, claimFuel);
      if !converged {
        finished := false;
        EvolvedRefl(mr.State());
        return;
      }
      var finalClaims;
      ghost var trail;
      penaltyAfter, fppAfter, finalClaims, foundAny, finished, r, trail := CommitPhase(ctx, mr, st.inverseClaims, penalty, fpp, commitFuel);
      lastTurnClaims := finalClaims;
    }

    /** getMiningCommands without the dropoff fill (lines 269-282): the
        dropoff values are reset, then rounds run, sharing the penalties
        and reservations, while a round commits a ship; each such round
        commits at least one ship, so the rounds end. `rounds` holds the
        remaining ships before each round and after the last: when all
        finish, every round but the last left fewer ships remaining, and the
        last committed none. */
    /** The record of remaining-ship sets after each round: every round
        but the last two shrank the set; while the loop goes on the last
        round shrank it too, and once it stopped quietly the last round
        repeated the one before. */
    ghost predicate RoundsRecord(rounds: seq<set<Ship>>, going: bool, quiet: bool)
    {
      && |rounds| >= 1
      && (forall i :: 0 <= i < |rounds| - 2 ==> |rounds[i + 1]| < |rounds[i]|)
      && (going && |rounds| >= 2 ==> |rounds[|rounds| - 1]| < |rounds[|rounds| - 2]|)
      && (quiet ==> |rounds| >= 2 && rounds[|rounds| - 2] == rounds[|rounds| - 1])
    }

    /** One more round's remaining ships appended to the record: a round
        that committed a ship shrinks the set, a quiet one repeats it. */
    lemma RoundsStep(rounds: seq<set<Ship>>, next: set<Ship>, shrank: bool, same: bool, quiet: bool)
      requires RoundsRecord(rounds, true, false)
      requires shrank ==> |next| < |rounds[|rounds| - 1]|
      requires same ==> next == rounds[|rounds| - 1]
      requires quiet ==> same
      ensures RoundsRecord(rounds + [next], shrank, quiet)
      ensures (rounds + [next])[0] == rounds[0]
    {
      var r' := rounds + [next];
      forall i | 0 <= i < |r'| - 2 ensures |r'[i + 1]| < |r'[i]| {
        if i < |rounds| - 2 { assert r'[i + 1] == rounds[i + 1] && r'[i] == rounds[i]; }
        else { assert r'[i + 1] == rounds[|rounds| - 1] && r'[i] == rounds[|rounds| - 2]; }
      }
    }

    method GetMiningCommands(ctx: Context, mr: MoveRegister, claimFuel: nat, commitFuel: nat)
      returns (finished: bool, r: Result<()>, ghost rounds: seq<set<Ship>>)
      requires mr.Valid() && mr.game == ctx.game && Square(ctx.game.board)
      modifies this, mr
      ensures mr.Valid() && Evolved(old(mr.State()), mr.State(), old(mr.remainingShips))
      ensures finished && r.Ok? ==>
        && |rounds| >= 2 && rounds[0] == old(mr.remainingShips) && rounds[|rounds| - 1] == mr.remainingShips
        && (forall i :: 0 <= i < |rounds| - 2 ==> |rounds[i + 1]| < |rounds[i]|)
        && rounds[|rounds| - 2] == rounds[|rounds| - 1]
      ensures forall p :: p in dropoffMiningValue ==> HasFriendlyStructure(ctx.game, p)
      ensures r.Err? ==> r.failure == MissingOptions
    {
      dropoffMiningValue := map[];
      var scorePenalty: map<Position, real> := map[];
      var futurePlannedPositions: Reservations := map[];
      finished, r := true, Ok(());
      ghost var start := mr.State();
      rounds := [start.remaining];
      EvolvedRefl(start);
      var loop := true;
      while loop
        invariant mr.Valid() && mr.game == ctx.game
        invariant Evolved(start, mr.State(), start.remaining)
        invariant RoundsRecord(rounds, loop, !loop && finished && r.Ok?)
        invariant rounds[0] == start.remaining && rounds[|rounds| - 1] == mr.remainingShips
        invariant PenaltiesAtLeastOne(scorePenalty)
        invariant forall p :: p in dropoffMiningValue ==> HasFriendlyStructure(ctx.game, p)
        invariant loop ==> finished && r.Ok?
        invariant r.Err? ==> r.failure == MissingOptions
        decreases |mr.remainingShips|, loop
      {
        ghost var before := mr.State();
        var foundAny;
        scorePenalty, futurePlannedPositions, foundAny, finished, r :=
          OneRound(ctx, mr, scorePenalty, futurePlannedPositions, claimFuel, commitFuel);
        EvolvedTrans(start, before, mr.State(), start.remaining);
        RoundsStep(rounds, mr.remainingShips, foundAny, !foundAny, !foundAny && finished && r.Ok?);
        rounds := rounds + [mr.remainingShips];
        loop := foundAny && finished && r.Ok?;
      }
    }
  }
}
