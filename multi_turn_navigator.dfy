/** MultiTurnNavigator and PartialPlan
    (bots/current_bot/navigation/MultiTurnNavigator.java): every shortest
    path plan toward a destination, grown one cell per turn against the cells
    blocked on that turn, and what all surviving plans agree on. */
module MultiTurnNavigation {
  import opened Wrappers
  import opened Geometry
  import opened World
  import opened Tiebreakers
  import opened Navigation

  /** A partial plan: the cells the ship stands on, turn by turn, starting
      with its current cell. */
  type Plan = seq<Position>

  /** What the navigator is built from. */
  datatype Query = Query(
    game: Game,
    ship: Ship,
    dest: Position,
    occupiedPositions: set<Position>,
    futurePlannedPositions: map<int, map<Position, Ship>>,
    maxPlanLength: int,
    intendedStayLength: int)

  predicate NonEmptyPlans(plans: seq<Plan>)
  {
    forall k :: 0 <= k < |plans| ==> plans[k] != []
  }

  function Last(p: Plan): Position
    requires p != []
  {
    p[|p| - 1]
  }

  // ---------------------------------------------------------------------
  // PartialPlan.extendTowards

  /** The plans `plan` grows into along the directions `ds`, in order,
      skipping any direction into an occupied cell. */
  function Extensions(m: GameMap, plan: Plan, occupied: set<Position>, ds: seq<Direction>): (r: seq<Plan>)
    requires ValidMap(m) && plan != []
  {
    if ds == [] then []
    else
      var rest := Extensions(m, plan, occupied, ds[..|ds| - 1]);
      var next := DirectionalOffset(m, Last(plan), ds[|ds| - 1]);
      if next in occupied then rest else rest + [plan + [next]]
  }

  /** The directions extendTowards takes from the plan's last cell: those
      of navigateAll with the ship's cargo, told that it stands on its
      current cell exactly when the destination is the plan's first cell. */
  function PlanDirections(g: Game, halite: int, start: Position, dest: Position, occupied: set<Position>, plan: Plan): seq<Direction>
    requires ValidMap(g.board) && plan != []
  {
    Filtered(g, Last(plan), occupied, VisitableWith(halite, dest == start), GetUnsafeMoves(g.board, Last(plan), dest))
  }

  function ExtendPlan(g: Game, halite: int, start: Position, dest: Position, occupied: set<Position>, plan: Plan): seq<Plan>
    requires ValidMap(g.board) && plan != []
  {
    Extensions(g.board, plan, occupied, PlanDirections(g, halite, start, dest, occupied, plan))
  }

  lemma {:induction false} ExtensionsMember(m: GameMap, plan: Plan, occupied: set<Position>, ds: seq<Direction>, q: Plan)
    requires ValidMap(m) && plan != []
    ensures q in Extensions(m, plan, occupied, ds) <==>
      exists d :: d in ds && q == plan + [DirectionalOffset(m, Last(plan), d)] && DirectionalOffset(m, Last(plan), d) !in occupied
  {
    if ds != [] {
      var init, d := ds[..|ds| - 1], ds[|ds| - 1];
      assert ds == init + [d];
      ExtensionsMember(m, plan, occupied, init, q);
    }
  }

  /** Every extension is the plan plus one unblocked cell reached by a
      navigateAll direction. */
  lemma ExtendPlanMember(g: Game, halite: int, start: Position, dest: Position, occupied: set<Position>, plan: Plan, q: Plan)
    requires ValidMap(g.board) && plan != []
    requires q in ExtendPlan(g, halite, start, dest, occupied, plan)
    ensures |q| == |plan| + 1 && q[..|plan|] == plan && q[|plan|] !in occupied
    ensures exists d :: d in GetUnsafeMoves(g.board, Last(plan), dest) && q[|plan|] == DirectionalOffset(g.board, Last(plan), d)
  {
    var ds := PlanDirections(g, halite, start, dest, occupied, plan);
    ExtensionsMember(g.board, plan, occupied, ds, q);
    var d :| d in ds && q == plan + [DirectionalOffset(g.board, Last(plan), d)] && DirectionalOffset(g.board, Last(plan), d) !in occupied;
    FilteredMember(g, Last(plan), occupied, VisitableWith(halite, dest == start), GetUnsafeMoves(g.board, Last(plan), dest), d);
    assert q[..|plan|] == plan;
  }

  /** One more direction for the extensions. */
  lemma ExtensionsNext(m: GameMap, plan: Plan, occupied: set<Position>, ds: seq<Direction>, i: int)
    requires ValidMap(m) && plan != [] && 0 <= i < |ds|
    ensures var next := DirectionalOffset(m, Last(plan), ds[i]);
      Extensions(m, plan, occupied, ds[..i + 1]) ==
        if next in occupied then Extensions(m, plan, occupied, ds[..i])
        else Extensions(m, plan, occupied, ds[..i]) + [plan + [next]]
  {
    assert ds[..i + 1][..i] == ds[..i];
  }

  /** PartialPlan.extendTowards(dest, occupied). */
  method ExtendTowards(g: Game, halite: int, start: Position, dest: Position, occupied: set<Position>, plan: Plan)
    returns (plans: seq<Plan>)
    requires ValidMap(g.board) && plan != []
    ensures plans == ExtendPlan(g, halite, start, dest, occupied, plan)
  {
    var directions := NavigateAll(g, Last(plan), halite, dest, dest == start, occupied);
    assert directions == PlanDirections(g, halite, start, dest, occupied, plan);
    plans := [];
    var i := 0;
    while i < |directions|
      invariant 0 <= i <= |directions|
      invariant plans == Extensions(g.board, plan, occupied, directions[..i])
    {
      var newPosition := DirectionalOffset(g.board, Last(plan), directions[i]);
      ExtensionsNext(g.board, plan, occupied, directions, i);
      if newPosition !in occupied {
        plans := plans + [plan + [newPosition]];
      }
      i := i + 1;
    }
    assert directions[..|directions|] == directions;
  }

  // ---------------------------------------------------------------------
  // One turn of the search

  /** All plans grown by one turn, in order. */
  function StepPlans(g: Game, halite: int, start: Position, dest: Position, occupied: set<Position>, plans: seq<Plan>): seq<Plan>
    requires ValidMap(g.board) && NonEmptyPlans(plans)
  {
    if plans == [] then []
    else
      StepPlans(g, halite, start, dest, occupied, plans[..|plans| - 1])
        + ExtendPlan(g, halite, start, dest, occupied, plans[|plans| - 1])
  }

  /** `to` is one getUnsafeMoves step from `from` toward `dest`. */
  predicate StepsToward(m: GameMap, from: Position, to: Position, dest: Position)
    requires ValidMap(m)
  {
    exists d :: d in GetUnsafeMoves(m, from, dest) && to == DirectionalOffset(m, from, d)
  }

  /** A plan after the step is a plan before it plus one unblocked cell. */
  lemma {:induction false} StepPlansMember(g: Game, halite: int, start: Position, dest: Position, occupied: set<Position>, plans: seq<Plan>, q: Plan)
    requires ValidMap(g.board) && NonEmptyPlans(plans)
    requires q in StepPlans(g, halite, start, dest, occupied, plans)
    ensures |q| >= 2 && q[..|q| - 1] in plans && q[|q| - 1] !in occupied
    ensures StepsToward(g.board, q[|q| - 2], q[|q| - 1], dest)
    ensures GrownFrom(g.board, dest, plans, q)
  {
    var init, p := plans[..|plans| - 1], plans[|plans| - 1];
    assert StepPlans(g, halite, start, dest, occupied, plans)
      == StepPlans(g, halite, start, dest, occupied, init) + ExtendPlan(g, halite, start, dest, occupied, p);
    if q in StepPlans(g, halite, start, dest, occupied, init) {
      StepPlansMember(g, halite, start, dest, occupied, init, q);
      var k :| 0 <= k < |init| && init[k] == q[..|q| - 1];
      assert plans[k] == init[k];
    } else {
      ExtendPlanMember(g, halite, start, dest, occupied, p, q);
      assert q[..|q| - 1] == p;
      assert Last(p) == q[|q| - 2];
    }
  }

  /** The cells blocked on turn t: the claimed cells on the first turn, and
      afterwards the cells other ships have planned for that turn. */
  function Blocked(q: Query, t: int): set<Position>
  {
    if t == 1 then q.occupiedPositions
    else if t in q.futurePlannedPositions then
      set p | p in q.futurePlannedPositions[t] && q.futurePlannedPositions[t][p] != q.ship
    else {}
  }

  predicate SomeReached(plans: seq<Plan>, dest: Position)
  {
    exists p :: p in plans && p != [] && Last(p) == dest
  }

  /** The constructor's loop from a given state: it runs while t is within
      the plan length and fewer than intendedStayLength turns have passed at
      the destination. Each turn first notes whether some plan ends on the
      destination (and once it has, every later turn counts as a turn at
      the destination), then grows all plans the same way. */
  function Search(q: Query, plans: seq<Plan>, t: int, turnsAtDest: int, reachedDest: bool): seq<Plan>
    requires ValidMap(q.game.board) && NonEmptyPlans(plans)
    decreases q.maxPlanLength - t
  {
    if !(t <= q.maxPlanLength && turnsAtDest < q.intendedStayLength) then plans
    else
      var reached := reachedDest || SomeReached(plans, q.dest);
      Search(q, Advance(q, plans, t), t + 1, if reached then turnsAtDest + 1 else turnsAtDest, reached)
  }

  /** Turn t of the search: every plan grown against that turn's blocked
      cells. */
  function Advance(q: Query, plans: seq<Plan>, t: int): (r: seq<Plan>)
    requires ValidMap(q.game.board) && NonEmptyPlans(plans)
    ensures NonEmptyPlans(r)
  {
    StepNonEmpty(q.game, q.ship.halite, q.ship.position, q.dest, Blocked(q, t), plans);
    StepPlans(q.game, q.ship.halite, q.ship.position, q.dest, Blocked(q, t), plans)
  }

  lemma StepNonEmpty(g: Game, halite: int, start: Position, dest: Position, occupied: set<Position>, plans: seq<Plan>)
    requires ValidMap(g.board) && NonEmptyPlans(plans)
    ensures NonEmptyPlans(StepPlans(g, halite, start, dest, occupied, plans))
  {
    var next := StepPlans(g, halite, start, dest, occupied, plans);
    forall k | 0 <= k < |next| ensures next[k] != [] {
      StepPlansMember(g, halite, start, dest, occupied, plans, next[k]);
    }
  }

  // ---------------------------------------------------------------------
  // Shape of the surviving plans

  /** Plans of one common length, each starting at `start`. */
  predicate Aligned(plans: seq<Plan>, len: int, start: Position)
  {
    len >= 1 && forall k :: 0 <= k < |plans| ==> |plans[k]| == len && plans[k][0] == start
  }

  /** Aligned plans whose second cell, when they have one, is one
      getUnsafeMoves step from the ship toward the destination. */
  predicate Shaped(q: Query, plans: seq<Plan>, len: int)
    requires ValidMap(q.game.board)
  {
    Aligned(plans, len, q.ship.position)
    && forall k :: 0 <= k < |plans| && len >= 2 ==> StepsToward(q.game.board, q.ship.position, plans[k][1], q.dest)
  }

  /** A turn keeps the plans shaped, one cell longer. */
  lemma StepShaped(q: Query, t: int, plans: seq<Plan>, len: int)
    requires ValidMap(q.game.board) && Shaped(q, plans, len)
    ensures NonEmptyPlans(plans)
    ensures Shaped(q, Advance(q, plans, t), len + 1)
  {
    StepPlansShaped(q, Blocked(q, t), plans, len);
  }

  /** Growing the plans against any set of blocked cells keeps them
      shaped, one cell longer. */
  lemma StepPlansShaped(q: Query, occupied: set<Position>, plans: seq<Plan>, len: int)
    requires ValidMap(q.game.board) && Shaped(q, plans, len)
    ensures NonEmptyPlans(plans)
    ensures Shaped(q, StepPlans(q.game, q.ship.halite, q.ship.position, q.dest, occupied, plans), len + 1)
  {
    var next := StepPlans(q.game, q.ship.halite, q.ship.position, q.dest, occupied, plans);
    StepPlansGrown(q, occupied, plans, next);
    AllGrownShaped(q, plans, len, next);
  }

  /** Each plan after the step grows one of the plans before it. */
  lemma StepPlansGrown(q: Query, occupied: set<Position>, plans: seq<Plan>, next: seq<Plan>)
    requires ValidMap(q.game.board) && NonEmptyPlans(plans)
    requires next == StepPlans(q.game, q.ship.halite, q.ship.position, q.dest, occupied, plans)
    ensures forall k :: 0 <= k < |next| ==> GrownFrom(q.game.board, q.dest, plans, next[k])
  {
    forall k | 0 <= k < |next|
      ensures GrownFrom(q.game.board, q.dest, plans, next[k])
    {
      StepPlansMember(q.game, q.ship.halite, q.ship.position, q.dest, occupied, plans, next[k]);
    }
  }

  /** Plans each grown by one step from a shaped list are shaped. */
  lemma AllGrownShaped(q: Query, plans: seq<Plan>, len: int, next: seq<Plan>)
    requires ValidMap(q.game.board) && Shaped(q, plans, len)
    requires forall k :: 0 <= k < |next| ==> GrownFrom(q.game.board, q.dest, plans, next[k])
    ensures Shaped(q, next, len + 1)
  {
    forall k | 0 <= k < |next|
      ensures |next[k]| == len + 1 && next[k][0] == q.ship.position && StepsToward(q.game.board, q.ship.position, next[k][1], q.dest)
    {
      GrownShaped(q, plans, len, next[k]);
    }
  }

  /** `r` is one of `plans` plus one step toward the destination. */
  predicate GrownFrom(m: GameMap, dest: Position, plans: seq<Plan>, r: Plan)
    requires ValidMap(m)
  {
    |r| >= 2 && r[..|r| - 1] in plans && StepsToward(m, r[|r| - 2], r[|r| - 1], dest)
  }

  /** A plan grown by one step from a shaped plan keeps its shape. */
  lemma GrownShaped(q: Query, plans: seq<Plan>, len: int, r: Plan)
    requires ValidMap(q.game.board) && Shaped(q, plans, len) && GrownFrom(q.game.board, q.dest, plans, r)
    ensures |r| == len + 1 && r[0] == q.ship.position && StepsToward(q.game.board, q.ship.position, r[1], q.dest)
  {
    var s := q.ship.position;
    var init := r[..|r| - 1];
    var j :| 0 <= j < |plans| && plans[j] == init;
    assert |init| == len && init[0] == s;
    assert r[0] == init[0];
    if len >= 2 {
      assert r[1] == init[1];
      assert StepsToward(q.game.board, s, plans[j][1], q.dest);
    } else {
      assert r[|r| - 2] == s && r[|r| - 1] == r[1];
    }
  }

  /** However many turns the search runs from here, its plans stay shaped,
      and they grow exactly when it runs at least one more turn. */
  lemma {:induction false} SearchShaped(q: Query, plans: seq<Plan>, t: int, turnsAtDest: int, reachedDest: bool, len: int)
    requires ValidMap(q.game.board) && Shaped(q, plans, len)
    ensures NonEmptyPlans(plans)
    ensures exists n :: (n >= len && (n > len <==> t <= q.maxPlanLength && turnsAtDest < q.intendedStayLength)
                         && Shaped(q, Search(q, plans, t, turnsAtDest, reachedDest), n))
    decreases q.maxPlanLength - t
  {
    if t <= q.maxPlanLength && turnsAtDest < q.intendedStayLength {
      var reached := reachedDest || SomeReached(plans, q.dest);
      var next := Advance(q, plans, t);
      var turns := if reached then turnsAtDest + 1 else turnsAtDest;
      assert Search(q, plans, t, turnsAtDest, reachedDest) == Search(q, next, t + 1, turns, reached);
      StepShaped(q, t, plans, len);
      SearchShaped(q, next, t + 1, turns, reached, len + 1);
      var n :| n >= len + 1 && Shaped(q, Search(q, next, t + 1, turns, reached), n);
      assert Shaped(q, Search(q, plans, t, turnsAtDest, reachedDest), n);
    } else {
      assert Search(q, plans, t, turnsAtDest, reachedDest) == plans;
      assert Shaped(q, Search(q, plans, t, turnsAtDest, reachedDest), len);
    }
  }

  /** When the search runs at least one turn, every surviving plan's
      second cell is the ship's cell offset by a getUnsafeMoves direction. */
  lemma FirstStepIsMove(q: Query, r: Plan)
    requires ValidMap(q.game.board) && r in Search(q, [[q.ship.position]], 1, 0, false)
    requires q.maxPlanLength >= 1 && q.intendedStayLength > 0
    ensures |r| >= 2 && r[0] == q.ship.position
    ensures StepsToward(q.game.board, q.ship.position, r[1], q.dest)
  {
    var start := [[q.ship.position]];
    assert Shaped(q, start, 1);
    SearchShaped(q, start, 1, 0, false, 1);
    var result := Search(q, start, 1, 0, false);
    var n :| n > 1 && Shaped(q, result, n);
    var k :| 0 <= k < |result| && result[k] == r;
  }

  // ---------------------------------------------------------------------
  // What the plans agree on

  /** Every plan has a cell at index i. */
  predicate Covers(plans: seq<Plan>, i: int)
  {
    0 <= i && forall k :: 0 <= k < |plans| ==> i < |plans[k]|
  }

  /** The cells the plans hold at index i. */
  function OptionsAt(plans: seq<Plan>, i: int): set<Position>
    requires Covers(plans, i)
  {
    if plans == [] then {}
    else
      var last := plans[|plans| - 1];
      OptionsAt(plans[..|plans| - 1], i) + {last[i]}
  }

  lemma {:induction false} OptionsAtMember(plans: seq<Plan>, i: int, x: Position)
    requires Covers(plans, i)
    ensures x in OptionsAt(plans, i) <==> exists k :: 0 <= k < |plans| && plans[k][i] == x
  {
    if plans != [] {
      var init := plans[..|plans| - 1];
      OptionsAtMember(init, i, x);
      if x == plans[|plans| - 1][i] {
        assert x in OptionsAt(plans, i);
      }
    }
  }

  /** One option at index i exactly when all plans agree there. */
  lemma SingleOption(plans: seq<Plan>, i: int)
    requires plans != [] && Covers(plans, i)
    ensures |OptionsAt(plans, i)| == 1 <==> forall a, b :: 0 <= a < |plans| && 0 <= b < |plans| ==> plans[a][i] == plans[b][i]
  {
    var first := plans[0][i];
    OptionsAtMember(plans, i, first);
    if forall a, b :: 0 <= a < |plans| && 0 <= b < |plans| ==> plans[a][i] == plans[b][i] {
      forall x | x in OptionsAt(plans, i) ensures x == first {
        OptionsAtMember(plans, i, x);
      }
      assert OptionsAt(plans, i) == {first};
    }
    if |OptionsAt(plans, i)| == 1 {
      forall a, b | 0 <= a < |plans| && 0 <= b < |plans| ensures plans[a][i] == plans[b][i] {
        OptionsAtMember(plans, i, plans[a][i]);
        OptionsAtMember(plans, i, plans[b][i]);
        SingletonSubset(OptionsAt(plans, i), plans[a][i], plans[b][i]);
      }
    }
  }

  lemma SingletonSubset(s: set<Position>, a: Position, b: Position)
    requires |s| == 1 && a in s && b in s
    ensures a == b
  {
    assert |s - {a}| == 0;
  }

  /** The cells the plans hold at index i, collected plan by plan. */
  method CollectOptions(plans: seq<Plan>, i: int) returns (turnOptions: set<Position>)
    requires Covers(plans, i)
    ensures turnOptions == OptionsAt(plans, i)
  {
    turnOptions := {};
    var j := 0;
    assert plans[..0] == [];
    while j < |plans|
      invariant 0 <= j <= |plans|
      invariant turnOptions == OptionsAt(plans[..j], i)
    {
      assert plans[..j + 1][..j] == plans[..j];
      turnOptions := turnOptions + {plans[j][i]};
      j := j + 1;
    }
    assert plans[..|plans|] == plans;
  }

  /** The options table of the constructor's final loop, and its
      determined cells: index i for every i below the plan length, with
      determined[i] present exactly when one cell is possible. */
  method Tabulate(plans: seq<Plan>, length: int) returns (options: map<int, set<Position>>, determined: map<int, Position>)
    requires plans != [] && forall k :: 0 <= k < |plans| ==> |plans[k]| == length
    ensures forall i :: i in options <==> 0 <= i < length
    ensures forall i :: 0 <= i < length ==> options[i] == OptionsAt(plans, i)
    ensures forall i :: i in determined <==> 0 <= i < length && |OptionsAt(plans, i)| == 1
    ensures forall i :: i in determined ==> OptionsAt(plans, i) == {determined[i]}
  {
    assert |plans[0]| == length;
    options := map[];
    determined := map[];
    var i := 0;
    while i < length
      invariant 0 <= i <= length
      invariant forall k :: k in options <==> 0 <= k < i
      invariant forall k :: 0 <= k < i ==> options[k] == OptionsAt(plans, k)
      invariant forall k :: k in determined <==> 0 <= k < i && |OptionsAt(plans, k)| == 1
      invariant forall k :: k in determined ==> OptionsAt(plans, k) == {determined[k]}
    {
      var turnOptions := CollectOptions(plans, i);
      if |turnOptions| == 1 {
        var x :| x in turnOptions;
        assert turnOptions == {x} by {
          forall y | y in turnOptions ensures y == x {
            SingletonSubset(turnOptions, x, y);
          }
        }
        determined := determined[i := x];
      }
      options := options[i := turnOptions];
      i := i + 1;
    }
  }

  /** All plans start on the ship's cell, so index 0 is always determined. */
  lemma IndexZeroDetermined(plans: seq<Plan>, len: int, s: Position)
    requires plans != [] && len >= 1 && Aligned(plans, len, s)
    ensures OptionsAt(plans, 0) == {s}
  {
    forall x ensures x in OptionsAt(plans, 0) <==> x == s {
      OptionsAtMember(plans, 0, x);
    }
  }

  // ---------------------------------------------------------------------
  // The constructor's loops

  /** The cells blocked on turn t, as the constructor collects them. */
  method BlockedAt(q: Query, t: int) returns (occupied: set<Position>)
    ensures occupied == Blocked(q, t)
  {
    if t == 1 {
      return q.occupiedPositions;
    }
    occupied := {};
    if t in q.futurePlannedPositions {
      var illegalMap := q.futurePlannedPositions[t];
      var keys := illegalMap.Keys;
      while keys != {}
        invariant keys <= illegalMap.Keys
        invariant forall p :: p in occupied <==> p in illegalMap && p !in keys && illegalMap[p] != q.ship
        decreases |keys|
      {
        var p :| p in keys;
        if illegalMap[p] != q.ship {
          occupied := occupied + {p};
        }
        keys := keys - {p};
      }
    }
  }

  /** Whether some plan ends on the destination. */
  method AnyReached(plans: seq<Plan>, dest: Position) returns (found: bool)
    requires NonEmptyPlans(plans)
    ensures found <==> SomeReached(plans, dest)
  {
    found := false;
    var i := 0;
    while i < |plans|
      invariant 0 <= i <= |plans|
      invariant found <==> exists k :: 0 <= k < i && Last(plans[k]) == dest
    {
      if dest == Last(plans[i]) {
        found := true;
      }
      i := i + 1;
    }
    if found {
      var k :| 0 <= k < |plans| && Last(plans[k]) == dest;
      assert plans[k] in plans;
    }
  }

  /** Every plan extended toward the destination, in order. */
  method Step(g: Game, halite: int, start: Position, dest: Position, occupied: set<Position>, plans: seq<Plan>)
    returns (newPlans: seq<Plan>)
    requires ValidMap(g.board) && NonEmptyPlans(plans)
    ensures newPlans == StepPlans(g, halite, start, dest, occupied, plans)
  {
    newPlans := [];
    var i := 0;
    while i < |plans|
      invariant 0 <= i <= |plans|
      invariant newPlans == StepPlans(g, halite, start, dest, occupied, plans[..i])
    {
      assert plans[..i + 1][..i] == plans[..i];
      var extended := ExtendTowards(g, halite, start, dest, occupied, plans[i]);
      newPlans := newPlans + extended;
      i := i + 1;
    }
    assert plans[..|plans|] == plans;
  }

  /** One turn of the constructor's loop: the turn's blocked cells, then
      every plan extended against them. */
  method AdvanceTurn(q: Query, plans: seq<Plan>, t: int) returns (newPlans: seq<Plan>)
    requires ValidMap(q.game.board) && NonEmptyPlans(plans)
    ensures newPlans == Advance(q, plans, t)
  {
    var occupied := BlockedAt(q, t);
    newPlans := Step(q.game, q.ship.halite, q.ship.position, q.dest, occupied, plans);
  }

  /** One turn of the search, taken while it runs. */
  lemma SearchTurn(q: Query, plans: seq<Plan>, t: int, turnsAtDest: int, reachedDest: bool)
    requires ValidMap(q.game.board) && NonEmptyPlans(plans)
    requires t <= q.maxPlanLength && turnsAtDest < q.intendedStayLength
    ensures var reached := reachedDest || SomeReached(plans, q.dest);
      Search(q, plans, t, turnsAtDest, reachedDest)
        == Search(q, Advance(q, plans, t), t + 1, if reached then turnsAtDest + 1 else turnsAtDest, reached)
  {
  }

  /** The constructor's search loop, from one plan holding the ship's cell
      at t = 1, with no turn at the destination yet. */
  method SearchLoop(q: Query) returns (plans: seq<Plan>)
    requires ValidMap(q.game.board)
    ensures NonEmptyPlans(plans)
    ensures plans == Search(q, [[q.ship.position]], 1, 0, false)
  {
    plans := [[q.ship.position]];
    var t := 1;
    var reachedDest := false;
    var turnsAtDest := 0;
    while t <= q.maxPlanLength && turnsAtDest < q.intendedStayLength
      invariant NonEmptyPlans(plans)
      invariant Search(q, plans, t, turnsAtDest, reachedDest) == Search(q, [[q.ship.position]], 1, 0, false)
      decreases q.maxPlanLength - t
    {
      SearchTurn(q, plans, t, turnsAtDest, reachedDest);
      var found := AnyReached(plans, q.dest);
      plans := AdvanceTurn(q, plans, t);
      reachedDest := reachedDest || found;
      if reachedDest {
        turnsAtDest := turnsAtDest + 1;
      }
      t := t + 1;
    }
  }

  /** A first-turn option is the cell one getUnsafeMoves step from the
      ship; on a square map of side at least three getDirectionTo names
      that step. */
  lemma FirstOptionIsMove(q: Query, plans: seq<Plan>, p: Position)
    requires ValidMap(q.game.board) && plans == Search(q, [[q.ship.position]], 1, 0, false)
    requires plans != [] && |plans[0]| >= 2 && Aligned(plans, |plans[0]|, q.ship.position)
    requires p in OptionsAt(plans, 1)
    requires Square(q.game.board) && q.game.board.width >= 3 && OnMap(q.game.board, q.ship.position)
    ensures GetDirectionTo(q.ship.position, p).Some?
    ensures GetDirectionTo(q.ship.position, p).value in GetUnsafeMoves(q.game.board, q.ship.position, q.dest)
  {
    assert Shaped(q, [[q.ship.position]], 1);
    SearchShaped(q, [[q.ship.position]], 1, 0, false, 1);
    var n :| n >= 1 && (n > 1 <==> q.maxPlanLength >= 1 && q.intendedStayLength > 0) && Shaped(q, plans, n);
    assert Aligned(plans, n, q.ship.position);
    assert |plans[0]| == n;
    OptionsAtMember(plans, 1, p);
    var k :| 0 <= k < |plans| && plans[k][1] == p;
    var d :| d in GetUnsafeMoves(q.game.board, q.ship.position, q.dest) && p == DirectionalOffset(q.game.board, q.ship.position, d);
    DirectionToInvertsOffset(q.game.board, q.ship.position, d);
  }

  // ---------------------------------------------------------------------
  // The navigator

  class MultiTurnNavigator {
    var canNavigate: bool
    var options: map<int, set<Position>>
    var determined: map<int, Position>
    const game: Game
    const ship: Ship
    /** The query the navigator was built from and its surviving plans. */
    ghost const query: Query
    ghost const plans: seq<Plan>

    /** The tables hold exactly what the surviving plans allow at each turn
        index, and are empty when no plan survives. */
    ghost predicate Valid()
      reads this
    {
      ValidMap(game.board) && game == query.game && ship == query.ship
      && plans == Search(query, [[ship.position]], 1, 0, false)
      && (canNavigate <==> plans != [])
      && (canNavigate ==>
            |plans[0]| >= 1 && Aligned(plans, |plans[0]|, ship.position)
            && (forall i :: i in options <==> 0 <= i < |plans[0]|)
            && (forall i :: i in options ==> options[i] == OptionsAt(plans, i))
            && (forall i :: i in determined <==> i in options && |options[i]| == 1)
            && (forall i :: i in determined ==> options[i] == {determined[i]}))
      && (!canNavigate ==> options == map[] && determined == map[])
    }

    /** MultiTurnNavigator's constructor. With no surviving plan the Java
        object leaves its tables null; here they are empty. */
    constructor(g: Game, s: Ship, dest: Position, occupiedPositions: set<Position>,
                futurePlannedPositions: map<int, map<Position, Ship>>, maxPlanLength: int, intendedStayLength: int)
      requires ValidMap(g.board)
      ensures Valid()
      ensures query == Query(g, s, dest, occupiedPositions, futurePlannedPositions, maxPlanLength, intendedStayLength)
    {
      var q := Query(g, s, dest, occupiedPositions, futurePlannedPositions, maxPlanLength, intendedStayLength);
      var found := SearchLoop(q);
      game := g;
      ship := s;
      query := q;
      plans := found;
      if found == [] {
        canNavigate := false;
        options := map[];
        determined := map[];
      } else {
        canNavigate := true;
        assert Shaped(q, [[s.position]], 1);
        SearchShaped(q, [[s.position]], 1, 0, false, 1);
        var length := |found[0]|;
        var o, d := Tabulate(found, length);
        options := o;
        determined := d;
      }
    }

    function CanNavigate(): bool
      reads this
    {
      canNavigate
    }

    /** anyMovesDetermined: its emptiness test on the determined table is
        redundant, because every plan starts on the ship's cell. */
    function AnyMovesDetermined(): (r: bool)
      reads this
      requires Valid()
      ensures r <==> canNavigate
      ensures r ==> 0 in determined && determined[0] == ship.position
    {
      if canNavigate then
        IndexZeroDetermined(plans, |plans[0]|, ship.position);
        determined != map[]
      else false
    }

    /** firstMoveDetermined. */
    function FirstMoveDetermined(): (r: bool)
      reads this
      requires Valid()
      ensures r ==> 1 in options && 1 in determined && options[1] == {determined[1]}
    {
      canNavigate && 1 in determined
    }

    /** The first move is determined exactly when all surviving plans
        agree on the first turn's cell. */
    lemma FirstMoveDeterminedMeansAgreement()
      requires Valid()
      ensures FirstMoveDetermined() <==>
        (canNavigate && |plans[0]| >= 2 && forall a, b :: 0 <= a < |plans| && 0 <= b < |plans| ==> plans[a][1] == plans[b][1])
    {
      if canNavigate && |plans[0]| >= 2 {
        SingleOption(plans, 1);
      }
    }

    /** firstMove: the tiebreaker folded over the directions to the first
        turn's cells, in the set's own (unspecified) order. Asking with no
        first-turn table is the Java null dereference. */
    method FirstMove(tb: Tiebreaker) returns (r: Result<Direction>)
      requires Valid()
      ensures r.Err? <==> 1 !in options
      ensures r.Err? ==> r.failure == MissingOptions
      ensures canNavigate && query.maxPlanLength >= 1 && query.intendedStayLength > 0 ==> r.Ok?
      ensures r.Ok? ==> exists p :: p in options[1] && GetDirectionTo(ship.position, p) == Some(r.value)
      ensures 1 in determined ==> r == Ok(GetDirectionTo(ship.position, determined[1]).value)
      ensures r.Ok? && Square(game.board) && game.board.width >= 3 && OnMap(game.board, ship.position) ==>
        r.value in GetUnsafeMoves(game.board, ship.position, query.dest)
    {
      if canNavigate && query.maxPlanLength >= 1 && query.intendedStayLength > 0 {
        FirstStepIsMove(query, plans[0]);
      }
      if 1 !in options {
        return Err(MissingOptions);
      }
      var firstTurnOptions := options[1];
      OptionsAtMember(plans, 1, plans[0][1]);
      var remaining := firstTurnOptions;
      var bestDirection: Option<Direction> := None;
      while remaining != {}
        invariant remaining <= firstTurnOptions
        invariant bestDirection.None? <==> remaining == firstTurnOptions
        invariant bestDirection.Some? ==> exists p :: p in firstTurnOptions && GetDirectionTo(ship.position, p) == bestDirection
        decreases |remaining|
      {
        var p :| p in remaining;
        DirectionToNeverThrows(ship.position, p);
        var d := GetDirectionTo(ship.position, p).value;
        if bestDirection.None? {
          bestDirection := Some(d);
        } else {
          var b := Choose(tb, game, ship, d, bestDirection.value);
          bestDirection := Some(b);
        }
        remaining := remaining - {p};
      }
      r := Ok(bestDirection.value);
      if Square(game.board) && game.board.width >= 3 && OnMap(game.board, ship.position) {
        var p :| p in firstTurnOptions && GetDirectionTo(ship.position, p) == bestDirection;
        FirstOptionIsMove(query, plans, p);
      }
    }
  }
}
