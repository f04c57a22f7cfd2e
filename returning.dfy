/** Returning (bots/current_bot/returning/Returning.java): which ships head
    home, in what order they are routed, and the square each of them steps
    to. Route distances come from SafeRouteMap (module SafeRoutes); the
    nearest-dropoff queries are MapStatsKeeper's on tables of the current
    turn. */
module Returning {
  import opened Wrappers
  import opened Geometry
  import opened World
  import opened CommonFunctions
  import opened Tiebreakers
  import opened Navigation
  import opened ShipCommands
  import opened MoveRegistry
  import opened MapStats
  import opened SafeRoutes
  import opened Preferences
  import MiningScores
  import Mining

  // ---------------------------------------------------------------------
  // Nearest dropoff, as the keeper answers it for our player on this turn's
  // tables (MapStatsKeeper.nearestDropoff / nearestDropoffDistance)

  function NearestDropoffOf(g: Game, p: Position, plan: Option<DropoffPlan>): Position
  {
    var d := NearestCandidate(g.board, p, g.me);
    WithPlan(g.board, p, d, CalculateDistance(g.board, p, d), plan).0
  }

  function DropoffDistance(g: Game, p: Position, plan: Option<DropoffPlan>): int
  {
    var d := NearestCandidate(g.board, p, g.me);
    WithPlan(g.board, p, d, CalculateDistance(g.board, p, d), plan).1
  }

  /** The two queries agree: the distance is that to the dropoff returned,
      which is our shipyard, one of our dropoffs or the planned site, and no
      other of these is nearer. */
  lemma DropoffDistanceIsNearest(g: Game, p: Position, plan: Option<DropoffPlan>)
    requires OnMap(g.board, p)
    ensures DropoffDistance(g, p, plan) == CalculateDistance(g.board, p, NearestDropoffOf(g, p, plan))
    ensures NearestDropoffOf(g, p, plan) in Candidates(g.me) || (plan.Some? && NearestDropoffOf(g, p, plan) == plan.value.destination)
    ensures forall q :: q in Candidates(g.me) ==> DropoffDistance(g, p, plan) <= CalculateDistance(g.board, p, q)
    ensures plan.Some? ==> DropoffDistance(g, p, plan) <= CalculateDistance(g.board, p, plan.value.destination)
  {
    var nearest := NearestTable(g.board, g.me);
    var distance := DistanceTable(g.board, g.me);
    NearestDropoffIsNearest(g.board, g.me, nearest, distance, p, plan);
    DropoffEntry(g.board, g.me, nearest, distance, p);
  }

  // ---------------------------------------------------------------------
  // Lexicographic order on integer keys

  /** `a` comes strictly before `b` in dictionary order. */
  predicate LexLess(a: seq<int>, b: seq<int>)
    requires |a| == |b|
    decreases |a|
  {
    |a| > 0 && (a[0] < b[0] || (a[0] == b[0] && LexLess(a[1..], b[1..])))
  }

  lemma {:induction false} LexLessIrreflexive(a: seq<int>)
    ensures !LexLess(a, a)
    decreases |a|
  {
    if |a| > 0 {
      LexLessIrreflexive(a[1..]);
    }
  }

  lemma {:induction false} LexLessTransitive(a: seq<int>, b: seq<int>, c: seq<int>)
    requires |a| == |b| == |c|
    requires LexLess(a, b) && LexLess(b, c)
    ensures LexLess(a, c)
    decreases |a|
  {
    if a[0] == b[0] && b[0] == c[0] {
      LexLessTransitive(a[1..], b[1..], c[1..]);
    }
  }

  lemma {:induction false} LexLessAsymmetric(a: seq<int>, b: seq<int>)
    requires |a| == |b|
    ensures LexLess(a, b) ==> !LexLess(b, a)
    decreases |a|
  {
    if |a| > 0 && a[0] == b[0] {
      LexLessAsymmetric(a[1..], b[1..]);
    }
  }

  /** Two keys of equal length are equal or one precedes the other. */
  lemma {:induction false} LexLessTotal(a: seq<int>, b: seq<int>)
    requires |a| == |b|
    ensures LexLess(a, b) || LexLess(b, a) || a == b
    decreases |a|
  {
    if |a| > 0 && a[0] == b[0] {
      LexLessTotal(a[1..], b[1..]);
      if a[1..] == b[1..] {
        assert a == [a[0]] + a[1..] && b == [b[0]] + b[1..];
      }
    }
  }

  /** "Not after" chains. */
  lemma LexNotAfterTransitive(a: seq<int>, b: seq<int>, c: seq<int>)
    requires |a| == |b| == |c|
    requires !LexLess(b, a) && !LexLess(c, b)
    ensures !LexLess(c, a)
  {
    LexLessTotal(a, b);
    LexLessTotal(b, c);
    if a != b && b != c {
      LexLessTransitive(a, b, c);
      LexLessAsymmetric(a, c);
    }
  }

  // ---------------------------------------------------------------------
  // ReturnerComparator (lines 17-43)

  /** safeDistance orElse 1000. */
  function SafeOr(routes: RouteMap, p: Position): int
  {
    routes.SafeDistance(p).GetOr(1000)
  }

  /** compare(s1, s2): the safe distance home, absent counting as 1000;
      nearer first, and on equal safe distances the nearest-dropoff
      distance. */
  function CompareReturners(g: Game, routes: RouteMap, plan: Option<DropoffPlan>, s1: Ship, s2: Ship): int
  {
    var a := SafeOr(routes, s1.position);
    var b := SafeOr(routes, s2.position);
    if a != b then CompareInts(a, b)
    else CompareInts(DropoffDistance(g, s1.position, plan), DropoffDistance(g, s2.position, plan))
  }

  /** The key the comparator sorts by. */
  function ReturnerKey(g: Game, routes: RouteMap, plan: Option<DropoffPlan>, s: Ship): (k: seq<int>)
    ensures |k| == 2
  {
    [SafeOr(routes, s.position), DropoffDistance(g, s.position, plan)]
  }

  /** compare is the dictionary order of (safe distance, dropoff distance). */
  lemma CompareReturnersByKey(g: Game, routes: RouteMap, plan: Option<DropoffPlan>, s1: Ship, s2: Ship)
    ensures CompareReturners(g, routes, plan, s1, s2) == -1 <==> LexLess(ReturnerKey(g, routes, plan, s1), ReturnerKey(g, routes, plan, s2))
    ensures CompareReturners(g, routes, plan, s1, s2) == 0 <==> ReturnerKey(g, routes, plan, s1) == ReturnerKey(g, routes, plan, s2)
    ensures CompareReturners(g, routes, plan, s1, s2) == 1 <==> LexLess(ReturnerKey(g, routes, plan, s2), ReturnerKey(g, routes, plan, s1))
  {
    var k1 := ReturnerKey(g, routes, plan, s1);
    var k2 := ReturnerKey(g, routes, plan, s2);
    LexLessTwo(k1[0], k1[1], k2[0], k2[1]);
    LexLessTwo(k2[0], k2[1], k1[0], k1[1]);
  }

  /** The comparator's contract: swapping the arguments negates the result,
      and "not after" is transitive. */
  lemma CompareReturnersIsConsistent(g: Game, routes: RouteMap, plan: Option<DropoffPlan>, a: Ship, b: Ship, c: Ship)
    ensures CompareReturners(g, routes, plan, a, b) == -CompareReturners(g, routes, plan, b, a)
    ensures CompareReturners(g, routes, plan, a, b) <= 0 && CompareReturners(g, routes, plan, b, c) <= 0 ==>
      CompareReturners(g, routes, plan, a, c) <= 0
  {
    CompareReturnersByKey(g, routes, plan, a, b);
    CompareReturnersByKey(g, routes, plan, b, a);
    CompareReturnersByKey(g, routes, plan, b, c);
    CompareReturnersByKey(g, routes, plan, a, c);
    var ka := ReturnerKey(g, routes, plan, a);
    var kb := ReturnerKey(g, routes, plan, b);
    var kc := ReturnerKey(g, routes, plan, c);
    LexLessAsymmetric(ka, kb);
    LexLessAsymmetric(kb, ka);
    if !LexLess(kb, ka) && !LexLess(kc, kb) {
      LexNotAfterTransitive(ka, kb, kc);
    }
  }

  /** A list of distinct ships in comparator order. */
  predicate ReturnersSorted(g: Game, routes: RouteMap, plan: Option<DropoffPlan>, list: seq<Ship>)
  {
    && (forall i, j :: 0 <= i < j < |list| ==> list[i] != list[j])
    && (forall i, j :: 0 <= i < j < |list| ==> CompareReturners(g, routes, plan, list[i], list[j]) <= 0)
  }

  /** A ship no other ship of the set precedes. */
  method FirstReturner(g: Game, routes: RouteMap, plan: Option<DropoffPlan>, ships: set<Ship>) returns (s: Ship)
    requires ships != {}
    ensures s in ships
    ensures forall t :: t in ships ==> !LexLess(ReturnerKey(g, routes, plan, t), ReturnerKey(g, routes, plan, s))
  {
    s :| s in ships;
    var rest := ships - {s};
    LexLessIrreflexive(ReturnerKey(g, routes, plan, s));
    while rest != {}
      invariant s in ships && rest <= ships
      invariant forall t :: t in ships && t !in rest ==> !LexLess(ReturnerKey(g, routes, plan, t), ReturnerKey(g, routes, plan, s))
      decreases |rest|
    {
      var t :| t in rest;
      if LexLess(ReturnerKey(g, routes, plan, t), ReturnerKey(g, routes, plan, s)) {
        forall u | u in ships && u !in rest
          ensures !LexLess(ReturnerKey(g, routes, plan, u), ReturnerKey(g, routes, plan, t))
        {
          if LexLess(ReturnerKey(g, routes, plan, u), ReturnerKey(g, routes, plan, t)) {
            LexLessTransitive(ReturnerKey(g, routes, plan, u), ReturnerKey(g, routes, plan, t), ReturnerKey(g, routes, plan, s));
          }
        }
        LexLessIrreflexive(ReturnerKey(g, routes, plan, t));
        s := t;
      }
      rest := rest - {t};
    }
  }

  /** No listed ship is preceded by a later one or by one still to place. */
  ghost predicate KeySorted(g: Game, routes: RouteMap, plan: Option<DropoffPlan>, list: seq<Ship>, rest: set<Ship>)
  {
    && (forall i, j :: 0 <= i < j < |list| ==> !LexLess(ReturnerKey(g, routes, plan, list[j]), ReturnerKey(g, routes, plan, list[i])))
    && (forall i, t :: 0 <= i < |list| && t in rest ==> !LexLess(ReturnerKey(g, routes, plan, t), ReturnerKey(g, routes, plan, list[i])))
  }

  /** Appending a ship no remaining ship precedes keeps the list sorted. */
  lemma AppendFirst(g: Game, routes: RouteMap, plan: Option<DropoffPlan>, list: seq<Ship>, rest: set<Ship>, s: Ship)
    requires s in rest && forall t :: t in rest ==> !LexLess(ReturnerKey(g, routes, plan, t), ReturnerKey(g, routes, plan, s))
    requires forall t :: t in list ==> t !in rest
    requires Distinct(list) && KeySorted(g, routes, plan, list, rest)
    ensures Distinct(list + [s]) && KeySorted(g, routes, plan, list + [s], rest - {s})
  {
  }

  lemma KeySortedIsSorted(g: Game, routes: RouteMap, plan: Option<DropoffPlan>, list: seq<Ship>)
    requires Distinct(list) && KeySorted(g, routes, plan, list, {})
    ensures ReturnersSorted(g, routes, plan, list)
  {
    forall i, j | 0 <= i < j < |list|
      ensures CompareReturners(g, routes, plan, list[i], list[j]) <= 0
    {
      CompareReturnersByKey(g, routes, plan, list[i], list[j]);
    }
  }

  /** sortedReturningShips.sort(new ReturnerComparator(...)) over the
      returning ships still without a command: each once, in comparator
      order; ships that compare equal come in either order. */
  method SortReturners(g: Game, routes: RouteMap, plan: Option<DropoffPlan>, ships: set<Ship>) returns (list: seq<Ship>)
    ensures forall s :: s in list <==> s in ships
    ensures |list| == |ships|
    ensures ReturnersSorted(g, routes, plan, list)
  {
    list := [];
    var rest := ships;
    while rest != {}
      invariant rest <= ships
      invariant forall s :: s in ships <==> s in list || s in rest
      invariant forall s :: s in list ==> s !in rest
      invariant |list| + |rest| == |ships|
      invariant Distinct(list) && KeySorted(g, routes, plan, list, rest)
      decreases |rest|
    {
      var s := FirstReturner(g, routes, plan, rest);
      AppendFirst(g, routes, plan, list, rest, s);
      list := list + [s];
      rest := rest - {s};
    }
    KeySortedIsSorted(g, routes, plan, list);
  }

  // ---------------------------------------------------------------------
  // SquareScore (lines 133-238)

  /** The score of one candidate step for a returning ship. */
  datatype SquareScore = SquareScore(
    safeDistance: Option<int>,
    safeHalite: Option<int>,
    unsafeDistance: int,
    halite: int,
    freeOfShips: bool,
    isMove: bool,
    direction: Direction)

  /** The constructor (lines 142-158): route distance and route halite of
      the target from the safe map, unless the route of the map that only
      avoids enemy squares, times `penalty` (RETURNING_UNSAFE_PENALTY), is
      strictly shorter than the safe one (absent counting as 1000); then the
      nearest-dropoff distance, the target's halite, whether it is free of
      enemy ships (our structures count as free), and whether it moves. */
  function Score(g: Game, ship: Ship, direction: Direction, safe: RouteMap, unsafe: RouteMap,
                 plan: Option<DropoffPlan>, penalty: int): (s: SquareScore)
    requires ValidMap(g.board)
    ensures s.direction == direction
  {
    var position := DirectionalOffset(g.board, ship.position, direction);
    var noObstacle := unsafe.SafeDistance(position);
    var switch := noObstacle.Some? && noObstacle.value * penalty < safe.SafeDistance(position).GetOr(1000);
    SquareScore(
      if switch then Some(noObstacle.value * penalty) else safe.SafeDistance(position),
      if switch then unsafe.SafeDistanceHalite(position) else safe.SafeDistanceHalite(position),
      DropoffDistance(g, position, plan),
      g.cells(position).halite,
      !HasEnemyShip(g, position) || HasFriendlyStructure(g, position),
      direction != Still,
      direction)
  }

  /** The penalised alternative never makes a score worse: the safe
      distance the score keeps (absent as 1000) is the smaller of the safe
      one and the penalised one, the safe one winning ties; the route
      halite comes from whichever map supplied the distance. */
  lemma ScoreTakesShorterRoute(g: Game, ship: Ship, direction: Direction, safe: RouteMap, unsafe: RouteMap,
                               plan: Option<DropoffPlan>, penalty: int)
    requires ValidMap(g.board)
    ensures var position := DirectionalOffset(g.board, ship.position, direction);
      var s := Score(g, ship, direction, safe, unsafe, plan, penalty);
      && (unsafe.SafeDistance(position).None? ==> s.safeDistance == safe.SafeDistance(position) && s.safeHalite == safe.SafeDistanceHalite(position))
      && (unsafe.SafeDistance(position).Some? ==>
           s.safeDistance.GetOr(1000) == Min(SafeOr(safe, position), unsafe.distances[position] * penalty))
      && (s.safeDistance != safe.SafeDistance(position) ==>
           && unsafe.SafeDistance(position).Some?
           && unsafe.distances[position] * penalty < SafeOr(safe, position)
           && s.safeHalite == unsafe.SafeDistanceHalite(position))
      && (s.safeHalite != safe.SafeDistanceHalite(position) ==> s.safeHalite == unsafe.SafeDistanceHalite(position))
  {
  }

  /** The other fields: the nearest-dropoff distance of the target, its
      halite, freedom from enemy ships and whether the step moves. */
  lemma ScoreFields(g: Game, ship: Ship, direction: Direction, safe: RouteMap, unsafe: RouteMap,
                    plan: Option<DropoffPlan>, penalty: int)
    requires ValidMap(g.board) && OnMap(g.board, ship.position)
    ensures var position := DirectionalOffset(g.board, ship.position, direction);
      var s := Score(g, ship, direction, safe, unsafe, plan, penalty);
      && s.unsafeDistance == CalculateDistance(g.board, position, NearestDropoffOf(g, position, plan))
      && (forall q :: q in Candidates(g.me) ==> s.unsafeDistance <= CalculateDistance(g.board, position, q))
      && s.halite == g.cells(position).halite
      && (s.freeOfShips <==> g.cells(position).ship.None? || g.cells(position).ship.value.owner == g.me.id
                             || g.cells(position).structureOwner == Some(g.me.id))
      && (s.isMove <==> direction in AllCardinals)
  {
    var position := DirectionalOffset(g.board, ship.position, direction);
    DropoffDistanceIsNearest(g, position, plan);
  }

  /** safeDistance orElse 1000 and safeHalite orElse 10000. */
  function SafeKey(s: SquareScore): int
  {
    s.safeDistance.GetOr(1000)
  }

  function HaliteKey(s: SquareScore): int
  {
    s.safeHalite.GetOr(10000)
  }

  /** A preferred boolean ranks 0. */
  function Rank(b: bool): int
  {
    if b then 0 else 1
  }

  /** betterThan(other, queueing, scared), as written. */
  predicate BetterThan(a: SquareScore, b: SquareScore, queueing: bool, scared: bool)
  {
    if !scared && a.freeOfShips != b.freeOfShips then a.freeOfShips
    else if scared then
      if a.unsafeDistance != b.unsafeDistance then a.unsafeDistance < b.unsafeDistance
      else if SafeKey(a) != SafeKey(b) then SafeKey(a) < SafeKey(b)
      else if a.isMove != b.isMove then a.isMove
      else if HaliteKey(a) != HaliteKey(b) then HaliteKey(a) < HaliteKey(b)
      else a.halite < b.halite
    else if queueing then
      if SafeKey(a) != SafeKey(b) then SafeKey(a) < SafeKey(b)
      else if a.unsafeDistance != b.unsafeDistance then a.unsafeDistance < b.unsafeDistance
      else if a.isMove != b.isMove then a.isMove
      else if HaliteKey(a) != HaliteKey(b) then HaliteKey(a) < HaliteKey(b)
      else a.halite < b.halite
    else
      if a.isMove != b.isMove then a.isMove
      else if SafeKey(a) != SafeKey(b) then SafeKey(a) < SafeKey(b)
      else if a.unsafeDistance != b.unsafeDistance then a.unsafeDistance < b.unsafeDistance
      else if HaliteKey(a) != HaliteKey(b) then HaliteKey(a) < HaliteKey(b)
      else a.halite < b.halite
  }

  /** The priorities of each mode, most significant first. When scared:
      dropoff distance, safe distance, moving, route halite, halite. When
      not scared, freedom from enemy ships comes first, then when queueing:
      safe distance, dropoff distance, moving, route halite, halite; and
      otherwise moving, safe distance, dropoff distance, route halite,
      halite. */
  function Key(s: SquareScore, queueing: bool, scared: bool): (k: seq<int>)
    ensures |k| == if scared then 5 else 6
  {
    if scared then [s.unsafeDistance, SafeKey(s), Rank(s.isMove), HaliteKey(s), s.halite]
    else if queueing then [Rank(s.freeOfShips), SafeKey(s), s.unsafeDistance, Rank(s.isMove), HaliteKey(s), s.halite]
    else [Rank(s.freeOfShips), Rank(s.isMove), SafeKey(s), s.unsafeDistance, HaliteKey(s), s.halite]
  }

  /** Dictionary order on a key with a first entry split off. */
  lemma LexLessCons(x: int, a: seq<int>, y: int, b: seq<int>)
    requires |a| == |b|
    ensures LexLess([x] + a, [y] + b) <==> x < y || (x == y && LexLess(a, b))
  {
    assert ([x] + a)[1..] == a && ([y] + b)[1..] == b;
  }

  /** Dictionary order on keys of two, five and six entries, spelt out. */
  lemma LexLessTwo(a0: int, a1: int, b0: int, b1: int)
    ensures LexLess([a0, a1], [b0, b1]) <==> a0 < b0 || (a0 == b0 && a1 < b1)
  {
    LexLessCons(a1, [], b1, []);
    assert [a1] + [] == [a1] && [b1] + [] == [b1];
    LexLessCons(a0, [a1], b0, [b1]);
    assert [a0] + [a1] == [a0, a1] && [b0] + [b1] == [b0, b1];
  }

  lemma LexLessFive(a0: int, a1: int, a2: int, a3: int, a4: int, b0: int, b1: int, b2: int, b3: int, b4: int)
    ensures LexLess([a0, a1, a2, a3, a4], [b0, b1, b2, b3, b4]) <==>
      a0 < b0 || (a0 == b0 && (a1 < b1 || (a1 == b1 && (a2 < b2 || (a2 == b2 && (a3 < b3 || (a3 == b3 && a4 < b4)))))))
  {
    LexLessTwo(a3, a4, b3, b4);
    LexLessCons(a2, [a3, a4], b2, [b3, b4]);
    assert [a2] + [a3, a4] == [a2, a3, a4] && [b2] + [b3, b4] == [b2, b3, b4];
    LexLessCons(a1, [a2, a3, a4], b1, [b2, b3, b4]);
    assert [a1] + [a2, a3, a4] == [a1, a2, a3, a4] && [b1] + [b2, b3, b4] == [b1, b2, b3, b4];
    LexLessCons(a0, [a1, a2, a3, a4], b0, [b1, b2, b3, b4]);
    assert [a0] + [a1, a2, a3, a4] == [a0, a1, a2, a3, a4] && [b0] + [b1, b2, b3, b4] == [b0, b1, b2, b3, b4];
  }

  lemma LexLessSix(a0: int, a1: int, a2: int, a3: int, a4: int, a5: int, b0: int, b1: int, b2: int, b3: int, b4: int, b5: int)
    ensures LexLess([a0, a1, a2, a3, a4, a5], [b0, b1, b2, b3, b4, b5]) <==>
      a0 < b0 || (a0 == b0 && (a1 < b1 || (a1 == b1 && (a2 < b2 || (a2 == b2 && (a3 < b3 || (a3 == b3 && (a4 < b4 || (a4 == b4 && a5 < b5)))))))))
  {
    LexLessFive(a1, a2, a3, a4, a5, b1, b2, b3, b4, b5);
    LexLessCons(a0, [a1, a2, a3, a4, a5], b0, [b1, b2, b3, b4, b5]);
    assert [a0] + [a1, a2, a3, a4, a5] == [a0, a1, a2, a3, a4, a5] && [b0] + [b1, b2, b3, b4, b5] == [b0, b1, b2, b3, b4, b5];
  }

  /** betterThan is exactly the dictionary order of the mode's key. */
  lemma BetterThanIsKeyOrder(a: SquareScore, b: SquareScore, queueing: bool, scared: bool)
    ensures BetterThan(a, b, queueing, scared) <==> LexLess(Key(a, queueing, scared), Key(b, queueing, scared))
  {
    var ka := Key(a, queueing, scared);
    var kb := Key(b, queueing, scared);
    if scared {
      LexLessFive(ka[0], ka[1], ka[2], ka[3], ka[4], kb[0], kb[1], kb[2], kb[3], kb[4]);
    } else {
      LexLessSix(ka[0], ka[1], ka[2], ka[3], ka[4], ka[5], kb[0], kb[1], kb[2], kb[3], kb[4], kb[5]);
    }
  }

  /** betterThan is a strict order: never better than an identical score,
      never both ways, and transitive. */
  lemma BetterThanIsStrictOrder(a: SquareScore, b: SquareScore, c: SquareScore, queueing: bool, scared: bool)
    ensures !BetterThan(a, a, queueing, scared)
    ensures BetterThan(a, b, queueing, scared) ==> !BetterThan(b, a, queueing, scared)
    ensures BetterThan(a, b, queueing, scared) && BetterThan(b, c, queueing, scared) ==> BetterThan(a, c, queueing, scared)
  {
    var ka := Key(a, queueing, scared);
    var kb := Key(b, queueing, scared);
    var kc := Key(c, queueing, scared);
    BetterThanIsKeyOrder(a, a, queueing, scared);
    BetterThanIsKeyOrder(a, b, queueing, scared);
    BetterThanIsKeyOrder(b, a, queueing, scared);
    BetterThanIsKeyOrder(b, c, queueing, scared);
    BetterThanIsKeyOrder(a, c, queueing, scared);
    LexLessIrreflexive(ka);
    if LexLess(ka, kb) {
      if LexLess(kb, ka) {
        LexLessTransitive(ka, kb, ka);
      }
      if LexLess(kb, kc) {
        LexLessTransitive(ka, kb, kc);
      }
    }
  }

  /** Scores that are not better than one another have the same key. */
  lemma NeitherBetter(a: SquareScore, b: SquareScore, queueing: bool, scared: bool)
    requires !BetterThan(a, b, queueing, scared) && !BetterThan(b, a, queueing, scared)
    ensures Key(a, queueing, scared) == Key(b, queueing, scared)
  {
    BetterThanIsKeyOrder(a, b, queueing, scared);
    BetterThanIsKeyOrder(b, a, queueing, scared);
    LexLessTotal(Key(a, queueing, scared), Key(b, queueing, scared));
  }

  /** What each mode looks at first. */
  lemma BetterThanFirstConcern(a: SquareScore, b: SquareScore, queueing: bool, scared: bool)
    ensures !scared && a.freeOfShips && !b.freeOfShips ==> BetterThan(a, b, queueing, scared)
    ensures scared && a.unsafeDistance < b.unsafeDistance ==> BetterThan(a, b, queueing, scared)
    ensures !scared && queueing && a.freeOfShips == b.freeOfShips && SafeKey(a) < SafeKey(b) ==> BetterThan(a, b, queueing, scared)
    ensures !scared && !queueing && a.freeOfShips == b.freeOfShips && a.isMove && !b.isMove ==> BetterThan(a, b, queueing, scared)
  {
  }

  /** If b is not better than c, whatever beats b beats c. */
  lemma BetterThanNotWorse(a: SquareScore, b: SquareScore, c: SquareScore, queueing: bool, scared: bool)
    requires BetterThan(a, b, queueing, scared) && !BetterThan(c, b, queueing, scared)
    ensures BetterThan(a, c, queueing, scared)
  {
    BetterThanIsKeyOrder(a, b, queueing, scared);
    BetterThanIsKeyOrder(c, b, queueing, scared);
    BetterThanIsKeyOrder(a, c, queueing, scared);
    LexLessTotal(Key(b, queueing, scared), Key(c, queueing, scared));
    if Key(b, queueing, scared) != Key(c, queueing, scared) {
      LexLessTransitive(Key(a, queueing, scared), Key(b, queueing, scared), Key(c, queueing, scared));
    }
  }

  // ---------------------------------------------------------------------
  // Choosing among the options (lines 492-503)

  /** Where the fold over the options settles: each later option replaces
      the best so far only when it is better. */
  function BestIndex(options: seq<SquareScore>, queueing: bool, scared: bool): (k: nat)
    requires options != []
    ensures k < |options|
  {
    if |options| == 1 then 0
    else
      var k := BestIndex(options[..|options| - 1], queueing, scared);
      if BetterThan(options[|options| - 1], options[k], queueing, scared) then |options| - 1 else k
  }

  /** The option chosen is beaten by no option, and beats every option
      before it: among equally good options the first is kept. */
  lemma {:induction false} BestIndexIsFirstBest(options: seq<SquareScore>, queueing: bool, scared: bool)
    requires options != []
    ensures var k := BestIndex(options, queueing, scared);
      && (forall j :: 0 <= j < |options| ==> !BetterThan(options[j], options[k], queueing, scared))
      && (forall j :: 0 <= j < k ==> BetterThan(options[k], options[j], queueing, scared))
    decreases |options|
  {
    var n := |options|;
    var k := BestIndex(options, queueing, scared);
    if n == 1 {
      BetterThanIsStrictOrder(options[0], options[0], options[0], queueing, scared);
    } else {
      var init := options[..n - 1];
      var last := options[n - 1];
      BestIndexIsFirstBest(init, queueing, scared);
      var k0 := BestIndex(init, queueing, scared);
      assert forall j :: 0 <= j < n - 1 ==> init[j] == options[j];
      if BetterThan(last, options[k0], queueing, scared) {
        forall j | 0 <= j < n - 1
          ensures BetterThan(last, options[j], queueing, scared)
          ensures !BetterThan(options[j], last, queueing, scared)
        {
          BetterThanNotWorse(last, options[k0], options[j], queueing, scared);
          BetterThanIsStrictOrder(last, options[j], last, queueing, scared);
        }
        BetterThanIsStrictOrder(last, last, last, queueing, scared);
      }
    }
  }

  /** The loop of lines 492-503. */
  method PickBest(options: seq<SquareScore>, queueing: bool, scared: bool) returns (best: Option<SquareScore>)
    ensures best.None? <==> options == []
    ensures best.Some? ==> options != [] && best.value == options[BestIndex(options, queueing, scared)]
  {
    best := None;
    var i := 0;
    while i < |options|
      invariant 0 <= i <= |options|
      invariant best.None? <==> i == 0
      invariant best.Some? ==> best.value == options[BestIndex(options[..i], queueing, scared)]
    {
      var score := options[i];
      assert options[..i + 1][..i] == options[..i];
      if best.None? {
        best := Some(score);
      } else if BetterThan(score, best.value, queueing, scared) {
        best := Some(score);
      }
      i := i + 1;
    }
    assert options[..|options|] == options;
  }

  // ---------------------------------------------------------------------
  // The options of a returning ship (lines 464-486)

  /** The directions scored: STILL when the ship's own cell is unclaimed,
      then each cardinal, in ALL_CARDINALS order, whose target is
      unclaimed. */
  function OpenDirections(g: Game, p: Position, occupied: set<Position>): seq<Direction>
    requires ValidMap(g.board)
  {
    (if p !in occupied then [Still] else []) + Filtered(g, p, occupied, Unoccupied, AllCardinals)
  }

  lemma OpenDirectionsAreOpen(g: Game, p: Position, occupied: set<Position>)
    requires ValidMap(g.board) && OnMap(g.board, p)
    ensures forall d :: d in OpenDirections(g, p, occupied) <==> DirectionalOffset(g.board, p, d) !in occupied
    ensures Still in OpenDirections(g, p, occupied) <==> p !in occupied
    ensures p !in occupied ==> OpenDirections(g, p, occupied)[0] == Still
  {
    OffsetStill(g.board, p);
    forall d
      ensures d in OpenDirections(g, p, occupied) <==> DirectionalOffset(g.board, p, d) !in occupied
    {
      FilteredMember(g, p, occupied, Unoccupied, AllCardinals, d);
      assert d != Still ==> d in AllCardinals by {
        assert d == Still || d == North || d == South || d == East || d == West;
      }
    }
  }

  /** The score of each open direction, in order. */
  function Scored(g: Game, ship: Ship, ds: seq<Direction>, safe: RouteMap, unsafe: RouteMap,
                  plan: Option<DropoffPlan>, penalty: int): (r: seq<SquareScore>)
    requires ValidMap(g.board)
    ensures |r| == |ds|
  {
    if ds == [] then []
    else Scored(g, ship, ds[..|ds| - 1], safe, unsafe, plan, penalty) + [Score(g, ship, ds[|ds| - 1], safe, unsafe, plan, penalty)]
  }

  /** The i-th option scores the i-th open direction. */
  lemma {:induction false} ScoredAt(g: Game, ship: Ship, ds: seq<Direction>, safe: RouteMap, unsafe: RouteMap,
                                    plan: Option<DropoffPlan>, penalty: int, i: int)
    requires ValidMap(g.board) && 0 <= i < |ds|
    ensures Scored(g, ship, ds, safe, unsafe, plan, penalty)[i] == Score(g, ship, ds[i], safe, unsafe, plan, penalty)
    decreases |ds|
  {
    var init := ds[..|ds| - 1];
    var last := Score(g, ship, ds[|ds| - 1], safe, unsafe, plan, penalty);
    assert Scored(g, ship, ds, safe, unsafe, plan, penalty) == Scored(g, ship, init, safe, unsafe, plan, penalty) + [last];
    if i < |ds| - 1 {
      ScoredAt(g, ship, init, safe, unsafe, plan, penalty, i);
      assert init[i] == ds[i];
    }
  }

  /** A claimed neighbour whose safe distance is strictly below the
      ship's own (absent counting as 1000) means the ship is queueing. */
  predicate QueuesBehind(g: Game, ship: Ship, occupied: set<Position>, safe: RouteMap, d: Direction)
    requires ValidMap(g.board)
  {
    var dest := DirectionalOffset(g.board, ship.position, d);
    dest in occupied && safe.SafeDistance(dest).Some? && safe.distances[dest] < SafeOr(safe, ship.position)
  }

  predicate Queueing(g: Game, ship: Ship, occupied: set<Position>, safe: RouteMap)
    requires ValidMap(g.board)
  {
    exists d :: d in AllCardinals && QueuesBehind(g, ship, occupied, safe, d)
  }

  lemma ScoredSnoc(g: Game, ship: Ship, ds: seq<Direction>, d: Direction, safe: RouteMap, unsafe: RouteMap,
                   plan: Option<DropoffPlan>, penalty: int)
    requires ValidMap(g.board)
    ensures Scored(g, ship, ds + [d], safe, unsafe, plan, penalty)
      == Scored(g, ship, ds, safe, unsafe, plan, penalty) + [Score(g, ship, d, safe, unsafe, plan, penalty)]
  {
    assert (ds + [d])[..|ds|] == ds;
  }

  /** Queueing is decided by the four cardinals in turn. */
  lemma QueueingByIndex(g: Game, ship: Ship, occupied: set<Position>, safe: RouteMap)
    requires ValidMap(g.board)
    ensures Queueing(g, ship, occupied, safe) <==> exists j :: 0 <= j < |AllCardinals| && QueuesBehind(g, ship, occupied, safe, AllCardinals[j])
  {
    if Queueing(g, ship, occupied, safe) {
      var d :| d in AllCardinals && QueuesBehind(g, ship, occupied, safe, d);
      assert d == AllCardinals[0] || d == AllCardinals[1] || d == AllCardinals[2] || d == AllCardinals[3];
    }
  }

  /** One pass of the loop of lines 470-486: an occupied target may show
      that the ship is queueing; an unoccupied one is scored. */
  method ConsiderCardinal(g: Game, ship: Ship, occupied: set<Position>, safe: RouteMap, unsafe: RouteMap,
                          plan: Option<DropoffPlan>, penalty: int, d: Direction, ourDistance: int)
    returns (option: Option<SquareScore>, queues: bool)
    requires ValidMap(g.board) && ourDistance == SafeOr(safe, ship.position)
    ensures option.Some? <==> Keeps(g, occupied, Unoccupied, DirectionalOffset(g.board, ship.position, d))
    ensures option.Some? ==> option.value == Score(g, ship, d, safe, unsafe, plan, penalty)
    ensures queues <==> QueuesBehind(g, ship, occupied, safe, d)
  {
    var dest := DirectionalOffset(g.board, ship.position, d);
    queues := false;
    option := None;
    if dest in occupied {
      if safe.SafeDistance(dest).Some? {
        var safeDistance := safe.SafeDistance(dest).value;
        if safeDistance < ourDistance {
          queues := true;
        }
      }
    } else {
      option := Some(Score(g, ship, d, safe, unsafe, plan, penalty));
    }
  }

  /** Whether the ship queues behind one of `ds`, decided left to right. */
  predicate QueuesAmong(g: Game, ship: Ship, occupied: set<Position>, safe: RouteMap, ds: seq<Direction>)
    requires ValidMap(g.board)
  {
    ds != [] && (QueuesAmong(g, ship, occupied, safe, ds[..|ds| - 1]) || QueuesBehind(g, ship, occupied, safe, ds[|ds| - 1]))
  }

  lemma QueuesAmongStep(g: Game, ship: Ship, occupied: set<Position>, safe: RouteMap, ds: seq<Direction>, i: int)
    requires ValidMap(g.board) && 0 <= i < |ds|
    ensures QueuesAmong(g, ship, occupied, safe, ds[..i + 1]) <==>
      QueuesAmong(g, ship, occupied, safe, ds[..i]) || QueuesBehind(g, ship, occupied, safe, ds[i])
  {
    assert ds[..i + 1][..i] == ds[..i];
  }

  /** The left-to-right decision finds a direction exactly when one exists. */
  lemma {:induction false} QueuesAmongExists(g: Game, ship: Ship, occupied: set<Position>, safe: RouteMap, ds: seq<Direction>)
    requires ValidMap(g.board)
    ensures QueuesAmong(g, ship, occupied, safe, ds) <==> exists j :: 0 <= j < |ds| && QueuesBehind(g, ship, occupied, safe, ds[j])
    decreases |ds|
  {
    if ds != [] {
      var init := ds[..|ds| - 1];
      QueuesAmongExists(g, ship, occupied, safe, init);
      if exists j :: 0 <= j < |ds| && QueuesBehind(g, ship, occupied, safe, ds[j]) {
        var j :| 0 <= j < |ds| && QueuesBehind(g, ship, occupied, safe, ds[j]);
        if j < |ds| - 1 {
          assert init[j] == ds[j];
        }
      }
      if QueuesAmong(g, ship, occupied, safe, init) {
        var j :| 0 <= j < |init| && QueuesBehind(g, ship, occupied, safe, init[j]);
        assert ds[j] == init[j];
      }
    }
  }

  /** The loop of lines 470-486 over the directions `ds`: the options
      `options0` (the scores of `kept`) extended by the scores of the
      unoccupied targets, in order, and the queueing flag. */
  method ScanCardinals(g: Game, ship: Ship, occupied: set<Position>, safe: RouteMap, unsafe: RouteMap,
                       plan: Option<DropoffPlan>, penalty: int, ds: seq<Direction>,
                       options0: seq<SquareScore>, ghost kept: seq<Direction>)
    returns (options: seq<SquareScore>, queueing: bool)
    requires ValidMap(g.board) && options0 == Scored(g, ship, kept, safe, unsafe, plan, penalty)
    ensures options == Scored(g, ship, kept + Filtered(g, ship.position, occupied, Unoccupied, ds), safe, unsafe, plan, penalty)
    ensures queueing == QueuesAmong(g, ship, occupied, safe, ds)
  {
    var ourDistance := SafeOr(safe, ship.position);
    options := options0;
    queueing := false;
    ghost var filtered: seq<Direction> := [];
    assert kept + filtered == kept;
    var i := 0;
    while i < |ds|
      invariant 0 <= i <= |ds|
      invariant filtered == Filtered(g, ship.position, occupied, Unoccupied, ds[..i])
      invariant options == Scored(g, ship, kept + filtered, safe, unsafe, plan, penalty)
      invariant queueing == QueuesAmong(g, ship, occupied, safe, ds[..i])
    {
      FilteredStep(g, ship.position, occupied, Unoccupied, ds, i);
      QueuesAmongStep(g, ship, occupied, safe, ds, i);
      var queues;
      options, queues, filtered := ScanStep(g, ship, occupied, safe, unsafe, plan, penalty, ds[i], ourDistance, options, kept, filtered);
      queueing := queueing || queues;
      i := i + 1;
    }
    assert ds[..|ds|] == ds;
  }

  /** One direction of the loop of lines 470-486: its score is appended
      when its target is unoccupied, and whether the ship queues behind it. */
  method ScanStep(g: Game, ship: Ship, occupied: set<Position>, safe: RouteMap, unsafe: RouteMap,
                  plan: Option<DropoffPlan>, penalty: int, d: Direction, ourDistance: int,
                  options: seq<SquareScore>, ghost kept: seq<Direction>, ghost filtered: seq<Direction>)
    returns (options': seq<SquareScore>, queues: bool, ghost filtered': seq<Direction>)
    requires ValidMap(g.board) && ourDistance == SafeOr(safe, ship.position)
    requires options == Scored(g, ship, kept + filtered, safe, unsafe, plan, penalty)
    ensures filtered' == filtered + (if Keeps(g, occupied, Unoccupied, DirectionalOffset(g.board, ship.position, d)) then [d] else [])
    ensures options' == Scored(g, ship, kept + filtered', safe, unsafe, plan, penalty)
    ensures queues <==> QueuesBehind(g, ship, occupied, safe, d)
  {
    var option;
    option, queues := ConsiderCardinal(g, ship, occupied, safe, unsafe, plan, penalty, d, ourDistance);
    options', filtered' := options, filtered;
    if option.Some? {
      ScoredSnoc(g, ship, kept + filtered, d, safe, unsafe, plan, penalty);
      options' := options + [option.value];
      AppendSnoc(kept, filtered, d);
      filtered' := filtered + [d];
    } else {
      AppendSnoc(kept, filtered, d);
    }
  }

  lemma AppendSnoc(a: seq<Direction>, b: seq<Direction>, d: Direction)
    ensures a + (b + [d]) == (a + b) + [d] && b + [] == b
  {
  }

  /** Lines 464-486: the scores of the open directions, and whether the
      ship is queueing. */
  method CollectOptions(g: Game, ship: Ship, occupied: set<Position>, safe: RouteMap, unsafe: RouteMap,
                        plan: Option<DropoffPlan>, penalty: int)
    returns (options: seq<SquareScore>, queueing: bool)
    requires ValidMap(g.board) && OnMap(g.board, ship.position)
    ensures options == Scored(g, ship, OpenDirections(g, ship.position, occupied), safe, unsafe, plan, penalty)
    ensures queueing <==> Queueing(g, ship, occupied, safe)
  {
    ghost var kept: seq<Direction> := if ship.position !in occupied then [Still] else [];
    var still: seq<SquareScore> := [];
    if ship.position !in occupied {
      ScoredSnoc(g, ship, [], Still, safe, unsafe, plan, penalty);
      still := [Score(g, ship, Still, safe, unsafe, plan, penalty)];
    }
    options, queueing := ScanCardinals(g, ship, occupied, safe, unsafe, plan, penalty, AllCardinals, still, kept);
    QueuesAmongExists(g, ship, occupied, safe, AllCardinals);
    QueueingByIndex(g, ship, occupied, safe);
  }

  // ---------------------------------------------------------------------
  // getReturningMove (lines 385-512)

  /** What getReturningMove asks of the register: a move, with the cell
      where collisions become acceptable; a conversion into a dropoff, with
      the plan's updated halite need; or the exception it throws. */
  datatype Action =
    | Step(direction: Direction, collideAt: Option<Position>)
    | Convert(plan: DropoffPlan)
    | Fail(failure: Failure)

  /** The inputs of getReturningMove besides the game, the ship, the
      register and the plan: the two route maps, the endgame flags, the
      per-dropoff mining values of MiningFunctions.dropoffMiningValue, the
      halite reserved for exceptional squares, and the constants
      STAYING_RETURN_WEIGHT, RETURNING_UNSAFE_PENALTY and
      RETURN_SAFETY_MARGIN. */
  datatype ReturnContext = ReturnContext(
    safe: RouteMap,
    unsafe: RouteMap,
    suicide: bool,
    rushOn: bool,
    miningValue: map<Position, MiningScores.Score>,
    exceptionalHaliteNeeded: int,
    stayWeight: real,
    penalty: int,
    safetyMargin: int)

  /** gainByStaying (lines 429-431): what one more turn of mining adds, plus
      the move cost it saves minus the one it will cost later. */
  function StayGain(c: Constants, ship: Ship, halite: nat): (r: int)
    requires ValidConstants(c)
    ensures ship.halite <= c.maxHalite ==> r >= MineAmount(c, ship.halite, halite)
    ensures ship.halite <= c.maxHalite && halite == 0 ==> r == 0
  {
    var mined := MineAmount(c, ship.halite, halite);
    assert ship.halite <= c.maxHalite ==> MoveCost(c, halite - mined) <= MoveCost(c, halite) by {
      if ship.halite <= c.maxHalite {
        MoveCostMonotone(c, halite - mined, halite);
      }
    }
    mined + MoveCost(c, halite) - MoveCost(c, halite - mined)
  }

  lemma MoveCostMonotone(c: Constants, a: nat, b: nat)
    requires ValidConstants(c) && a <= b
    ensures MoveCost(c, a) <= MoveCost(c, b)
  {
    var ka := MoveCost(c, a);
    var kb := MoveCost(c, b);
    if ka > kb {
      assert (kb + 1) * c.moveCostRatio <= ka * c.moveCostRatio by {
        MulMonotone(kb + 1, ka, c.moveCostRatio);
      }
      assert false;
    }
  }

  lemma MulMonotone(x: int, y: int, k: int)
    requires x <= y && k > 0
    ensures x * k <= y * k
  {
    assert y * k - x * k == (y - x) * k;
  }

  /** Line 434's first half: the weighted gain from staying exceeds the
      value of a turn after returning, MAX_HALITE over the dropoff's mining
      value (1000 when it has none). A value of +Infinity makes the turn
      worth 0; a value of 0 makes it +Infinity, which no gain exceeds. */
  predicate WorthStaying(g: Game, ship: Ship, dropoff: Position, cx: ReturnContext)
    requires ValidConstants(g.consts)
  {
    var gain := StayGain(g.consts, ship, g.cells(ship.position).halite) as real * cx.stayWeight;
    var value := if dropoff in cx.miningValue then cx.miningValue[dropoff] else MiningScores.Finite(1000.0);
    match value
    case Infinite => gain > 0.0
    case Finite(x) => x != 0.0 && gain > (g.consts.maxHalite as real) / x
  }

  /** navigateLowHaliteDefaultSafety(game, ship, ship.position, occupied). */
  function StayMining(g: Game, ship: Ship, occupied: set<Position>): Option<Direction>
    requires ValidMap(g.board)
  {
    Fold(LowHalite, g, ship, Filtered(g, ship.position, occupied, VisitableBy(ship), GetUnsafeMoves(g.board, ship.position, ship.position)))
  }

  /** Navigating to the ship's own cell means staying, and succeeds exactly
      when that cell is unclaimed and visitable. */
  lemma StayMiningStays(g: Game, ship: Ship, occupied: set<Position>)
    requires ValidMap(g.board) && OnMap(g.board, ship.position)
    ensures StayMining(g, ship, occupied).Some? <==> ship.position !in occupied && CanVisit(g, ship.position, ship)
    ensures StayMining(g, ship, occupied).Some? ==> StayMining(g, ship, occupied).value == Still
  {
    var moves := GetUnsafeMoves(g.board, ship.position, ship.position);
    assert moves == [Still];
    assert DirectionalOffset(g.board, ship.position, Still) == ship.position;
    FilteredMember(g, ship.position, occupied, VisitableBy(ship), moves, Still);
    var kept := Filtered(g, ship.position, occupied, VisitableBy(ship), moves);
    assert forall d :: d in kept ==> d == Still by {
      forall d | d in kept ensures d == Still {
        FilteredMember(g, ship.position, occupied, VisitableBy(ship), moves, d);
      }
    }
  }

  /** The decision of getReturningMove for a ship at `p`, with `occupied`
      the cells claimed so far. */
  function ReturningAction(g: Game, ship: Ship, occupied: set<Position>, plan: Option<DropoffPlan>, cx: ReturnContext): Action
    requires ValidGame(g)
  {
    var p := ship.position;
    var dropoff := NearestDropoffOf(g, p, plan);
    var distance := DropoffDistance(g, p, plan);
    if distance == 0 then
      if cx.suicide then Step(Still, Some(dropoff))
      else if g.cells(p).structureOwner.Some? then Fail(ReturnerOnDropoff)
      else if plan.None? || plan.value.destination != p then Fail(NotOnPlannedSite)
      else if g.me.halite + ship.halite + g.cells(p).halite >= g.consts.dropoffCost + cx.exceptionalHaliteNeeded then
        Convert(plan.value.(haliteNeeded := g.consts.dropoffCost - ship.halite - g.cells(p).halite))
      else Step(Still, None)
    else if WorthStaying(g, ship, dropoff, cx) && !cx.rushOn && StayMining(g, ship, occupied).Some? then
      Step(StayMining(g, ship, occupied).value, None)
    else if cx.suicide && distance == 1 then
      UnsafeMovesShape(g.board, p, dropoff);
      Step(GetUnsafeMoves(g.board, p, dropoff)[0], Some(dropoff))
    else
      var options := Scored(g, ship, OpenDirections(g, p, occupied), cx.safe, cx.unsafe, plan, cx.penalty);
      var queueing := Queueing(g, ship, occupied, cx.safe);
      var scared := TurnsRemaining(g) <= distance + cx.safetyMargin;
      if options == [] then Step(Still, None)
      else Step(options[BestIndex(options, queueing, scared)].direction, None)
  }

  /** A ship with nothing left to go: it ends the turn where it is or
      becomes a dropoff, and an exception is raised only here, exactly when
      it is not suiciding and either stands on a structure or the plan's
      site is elsewhere. A conversion keeps the plan's site and happens only
      when banked, carried and cell halite cover the cost and the reserve. */
  lemma ReturningActionAtDropoff(g: Game, ship: Ship, occupied: set<Position>, plan: Option<DropoffPlan>, cx: ReturnContext)
    requires ValidGame(g) && DropoffDistance(g, ship.position, plan) == 0
    ensures var a := ReturningAction(g, ship, occupied, plan, cx);
      && (a.Step? ==> a.direction == Still)
      && (a.Fail? <==> !cx.suicide && (g.cells(ship.position).structureOwner.Some? || plan.None? || plan.value.destination != ship.position))
      && (a.Convert? ==> !cx.suicide && plan.Some? && a.plan.destination == plan.value.destination == ship.position)
      && (a.Convert? ==> g.me.halite + ship.halite + g.cells(ship.position).halite >= g.consts.dropoffCost + cx.exceptionalHaliteNeeded)
      && (a.Convert? ==> a.plan.haliteNeeded + ship.halite + g.cells(ship.position).halite == g.consts.dropoffCost)
      && (a.Step? && a.collideAt.Some? <==> cx.suicide)
  {
  }

  /** Only a ship with nothing left to go raises an exception. */
  lemma ReturningActionFailsOnlyAtDropoff(g: Game, ship: Ship, occupied: set<Position>, plan: Option<DropoffPlan>, cx: ReturnContext)
    requires ValidGame(g)
    ensures ReturningAction(g, ship, occupied, plan, cx).Fail? ==> DropoffDistance(g, ship.position, plan) == 0
    ensures ReturningAction(g, ship, occupied, plan, cx).Convert? ==> DropoffDistance(g, ship.position, plan) == 0
  {
  }

  /** Staying to mine keeps the ship on its cell, which is unclaimed and
      visitable. */
  lemma ReturningActionStays(g: Game, ship: Ship, occupied: set<Position>, plan: Option<DropoffPlan>, cx: ReturnContext)
    requires ValidGame(g) && OnMap(g.board, ship.position)
    requires DropoffDistance(g, ship.position, plan) != 0 && WorthStaying(g, ship, NearestDropoffOf(g, ship.position, plan), cx) && !cx.rushOn
    requires ship.position !in occupied && CanVisit(g, ship.position, ship)
    ensures ReturningAction(g, ship, occupied, plan, cx) == Step(Still, None)
  {
    StayMiningStays(g, ship, occupied);
  }

  /** In the endgame, a ship next to the nearest dropoff steps onto it,
      where collisions become acceptable. */
  lemma ReturningActionGoesIn(g: Game, ship: Ship, occupied: set<Position>, plan: Option<DropoffPlan>, cx: ReturnContext)
    requires ValidGame(g) && Square(g.board) && OnMap(g.board, ship.position) && OnMap(g.board, NearestDropoffOf(g, ship.position, plan))
    requires DropoffDistance(g, ship.position, plan) == 1 && cx.suicide
    requires !(WorthStaying(g, ship, NearestDropoffOf(g, ship.position, plan), cx) && !cx.rushOn && StayMining(g, ship, occupied).Some?)
    ensures var a := ReturningAction(g, ship, occupied, plan, cx);
      && a.Step? && a.collideAt == Some(NearestDropoffOf(g, ship.position, plan))
      && DirectionalOffset(g.board, ship.position, a.direction) == NearestDropoffOf(g, ship.position, plan)
  {
    var p := ship.position;
    var dropoff := NearestDropoffOf(g, p, plan);
    DropoffDistanceIsNearest(g, p, plan);
    DistanceProperties(g.board, p, dropoff);
    UnsafeMovesShape(g.board, p, dropoff);
    var d := GetUnsafeMoves(g.board, p, dropoff)[0];
    UnsafeMovesApproach(g.board, p, dropoff, d);
    DistanceProperties(g.board, DirectionalOffset(g.board, p, d), dropoff);
  }

  /** The ordinary case: the ship takes an unclaimed neighbour or its own
      unclaimed cell, one that no other such choice scores better than, and
      the first of the equally good ones; it stays only when every choice is
      claimed. */
  lemma ReturningActionChoosesBest(g: Game, ship: Ship, occupied: set<Position>, plan: Option<DropoffPlan>, cx: ReturnContext)
    requires ValidGame(g) && OnMap(g.board, ship.position)
    requires DropoffDistance(g, ship.position, plan) != 0
    requires !(WorthStaying(g, ship, NearestDropoffOf(g, ship.position, plan), cx) && !cx.rushOn && StayMining(g, ship, occupied).Some?)
    requires !(cx.suicide && DropoffDistance(g, ship.position, plan) == 1)
    ensures var a := ReturningAction(g, ship, occupied, plan, cx);
      var open := OpenDirections(g, ship.position, occupied);
      var queueing := Queueing(g, ship, occupied, cx.safe);
      var scared := TurnsRemaining(g) <= DropoffDistance(g, ship.position, plan) + cx.safetyMargin;
      && a.Step? && a.collideAt.None?
      && (open == [] ==> a.direction == Still)
      && (open != [] ==> DirectionalOffset(g.board, ship.position, a.direction) !in occupied)
      && (open != [] ==> forall e :: e in open ==>
            !BetterThan(Score(g, ship, e, cx.safe, cx.unsafe, plan, cx.penalty), Score(g, ship, a.direction, cx.safe, cx.unsafe, plan, cx.penalty), queueing, scared))
  {
    var p := ship.position;
    var open := OpenDirections(g, p, occupied);
    var options := Scored(g, ship, open, cx.safe, cx.unsafe, plan, cx.penalty);
    var queueing := Queueing(g, ship, occupied, cx.safe);
    var scared := TurnsRemaining(g) <= DropoffDistance(g, p, plan) + cx.safetyMargin;
    assert ReturningAction(g, ship, occupied, plan, cx) ==
      if options == [] then Step(Still, None) else Step(options[BestIndex(options, queueing, scared)].direction, None);
    OpenDirectionsAreOpen(g, p, occupied);
    if open != [] {
      BestScoredChoice(g, ship, open, cx.safe, cx.unsafe, plan, cx.penalty, queueing, scared);
      var k := BestIndex(options, queueing, scared);
      assert open[k] in open;
    }
  }

  /** The option the fold picks scores the direction at its own index, and
      no direction of `ds` scores better. */
  lemma BestScoredChoice(g: Game, ship: Ship, ds: seq<Direction>, safe: RouteMap, unsafe: RouteMap,
                         plan: Option<DropoffPlan>, penalty: int, queueing: bool, scared: bool)
    requires ValidMap(g.board) && ds != []
    ensures var options := Scored(g, ship, ds, safe, unsafe, plan, penalty);
      var k := BestIndex(options, queueing, scared);
      && options[k] == Score(g, ship, ds[k], safe, unsafe, plan, penalty)
      && forall e :: e in ds ==> !BetterThan(Score(g, ship, e, safe, unsafe, plan, penalty), options[k], queueing, scared)
  {
    var options := Scored(g, ship, ds, safe, unsafe, plan, penalty);
    var k := BestIndex(options, queueing, scared);
    BestIndexIsFirstBest(options, queueing, scared);
    ScoredAt(g, ship, ds, safe, unsafe, plan, penalty, k);
    forall e | e in ds
      ensures !BetterThan(Score(g, ship, e, safe, unsafe, plan, penalty), options[k], queueing, scared)
    {
      var j :| 0 <= j < |ds| && ds[j] == e;
      ScoredAt(g, ship, ds, safe, unsafe, plan, penalty, j);
    }
  }


  /** What carrying out action `a` for `ship` does to the register, from
      ledger `before` to ledger `after`, with result `r`: an exception leaves
      the register as it was; a move succeeds exactly when the ship was
      remaining or forced, claims its target if the ship was remaining, and
      makes the collision cell tolerant; a conversion succeeds exactly when
      the ship was remaining, removing it and appending its command, and
      hands on the updated plan. */
  ghost predicate Carries(board: GameMap, a: Action, ship: Ship, plan: Option<DropoffPlan>,
                          before: Ledger, after: Ledger, r: Result<Option<DropoffPlan>>)
    requires ValidMap(board)
  {
    match a
    case Fail(f) => r == Err(f) && after == before
    case Step(d, collideAt) =>
      && (r.Ok? <==> ship in before.remaining || ship in before.forced)
      && (r.Ok? ==> r.value == plan && (collideAt.Some? ==> collideAt.value in after.collisionsAllowed))
      && (ship in before.remaining ==> ship !in after.remaining && Move(board, ship, d).destination in after.occupied)
      && (r.Err? ==> r == Err(IllegalMove) && after == before)
    case Convert(np) =>
      && (r.Ok? <==> ship in before.remaining)
      && (r.Ok? ==> r.value == Some(np) && after.remaining == before.remaining - {ship}
                    && after.commands == before.commands + [TransformShipIntoDropoffSite(ship)])
      && (r.Err? ==> r == Err(NotRemaining) && after == before)
  }

  /** registerMove, then registerPossibleCollision at `collideAt` when
      given; the plan is passed on unchanged. */
  method CommitStep(mr: MoveRegister, ship: Ship, direction: Direction, collideAt: Option<Position>, plan: Option<DropoffPlan>)
    returns (r: Result<Option<DropoffPlan>>)
    requires mr.Valid()
    modifies mr
    ensures mr.Valid() && Evolved(old(mr.State()), mr.State(), {ship})
    ensures Carries(mr.game.board, Step(direction, collideAt), ship, plan, old(mr.State()), mr.State(), r)
  {
    var ok := mr.RegisterMove(ship, direction);
    if !ok {
      return Err(IllegalMove);
    }
    if collideAt.Some? {
      ghost var before := mr.State();
      mr.RegisterPossibleCollision(collideAt.value);
      assert Evolved(before, mr.State(), {});
      EvolvedWiden(before, mr.State(), {}, {ship});
      EvolvedTrans(old(mr.State()), before, mr.State(), {ship});
    }
    r := Ok(plan);
  }

  /** getReturningMove (lines 385-512), which carries out ReturningAction
      on the register: a move (with its collision cell) through
      registerMove, a conversion through registerDropoff, or the exception.
      The result is the plan as the next ship sees it. */
  method GetReturningMove(mr: MoveRegister, ship: Ship, plan: Option<DropoffPlan>, cx: ReturnContext)
    returns (r: Result<Option<DropoffPlan>>)
    requires mr.Valid() && OnMap(mr.game.board, ship.position)
    modifies mr
    ensures mr.Valid() && Evolved(old(mr.State()), mr.State(), {ship})
    ensures Carries(mr.game.board, ReturningAction(mr.game, ship, old(mr.occupiedPositions), plan, cx), ship, plan, old(mr.State()), mr.State(), r)
  {
    if DropoffDistance(mr.game, ship.position, plan) == 0 {
      r := Arrive(mr, ship, plan, cx);
    } else {
      r := Approach(mr, ship, plan, cx);
    }
  }

  /** Lines 395-426: the ship has reached the nearest dropoff or the
      planned site. */
  method Arrive(mr: MoveRegister, ship: Ship, plan: Option<DropoffPlan>, cx: ReturnContext)
    returns (r: Result<Option<DropoffPlan>>)
    requires mr.Valid() && OnMap(mr.game.board, ship.position)
    requires DropoffDistance(mr.game, ship.position, plan) == 0
    modifies mr
    ensures mr.Valid() && Evolved(old(mr.State()), mr.State(), {ship})
    ensures Carries(mr.game.board, ReturningAction(mr.game, ship, old(mr.occupiedPositions), plan, cx), ship, plan, old(mr.State()), mr.State(), r)
  {
    var g := mr.game;
    var p := ship.position;
    ghost var a := ReturningAction(g, ship, mr.occupiedPositions, plan, cx);
    if cx.suicide {
      var dropoff := NearestDropoffOf(g, p, plan);
      assert a == Step(Still, Some(dropoff));
      r := CommitStep(mr, ship, Still, Some(dropoff), plan);
    } else if g.cells(p).structureOwner.Some? {
      assert a == Fail(ReturnerOnDropoff);
      r := Err(ReturnerOnDropoff);
    } else if plan.None? || plan.value.destination != p {
      assert a == Fail(NotOnPlannedSite);
      r := Err(NotOnPlannedSite);
    } else if g.me.halite + ship.halite + g.cells(p).halite >= g.consts.dropoffCost + cx.exceptionalHaliteNeeded {
      var next := plan.value.(haliteNeeded := g.consts.dropoffCost - ship.halite - g.cells(p).halite);
      assert a == Convert(next);
      if ship !in mr.remainingShips {
        return Err(NotRemaining);
      }
      mr.RegisterDropoff(ship);
      assert Evolved(old(mr.State()), mr.State(), {ship});
      r := Ok(Some(next));
    } else {
      assert a == Step(Still, None);
      r := CommitStep(mr, ship, Still, None, plan);
    }
  }

  /** Lines 429-511: the ship is on its way; it may stay to mine, go in
      regardless in the endgame, or take the best-scoring open choice. */
  method Approach(mr: MoveRegister, ship: Ship, plan: Option<DropoffPlan>, cx: ReturnContext)
    returns (r: Result<Option<DropoffPlan>>)
    requires mr.Valid() && OnMap(mr.game.board, ship.position)
    requires DropoffDistance(mr.game, ship.position, plan) != 0
    modifies mr
    ensures mr.Valid() && Evolved(old(mr.State()), mr.State(), {ship})
    ensures Carries(mr.game.board, ReturningAction(mr.game, ship, old(mr.occupiedPositions), plan, cx), ship, plan, old(mr.State()), mr.State(), r)
  {
    var g := mr.game;
    var p := ship.position;
    var occupied := mr.occupiedPositions;
    var distance := DropoffDistance(g, p, plan);
    ghost var a := ReturningAction(g, ship, occupied, plan, cx);
    if WorthStaying(g, ship, NearestDropoffOf(g, p, plan), cx) && !cx.rushOn {
      var direction := Navigate(g, ship, p, occupied, LowHalite);
      if direction.Some? {
        assert a == Step(direction.value, None);
        r := CommitStep(mr, ship, direction.value, None, plan);
        return;
      }
    }
    if cx.suicide && distance == 1 {
      var dropoff := NearestDropoffOf(g, p, plan);
      UnsafeMovesShape(g.board, p, dropoff);
      var d := GetUnsafeMoves(g.board, p, dropoff)[0];
      assert a == Step(d, Some(dropoff));
      r := CommitStep(mr, ship, d, Some(dropoff), plan);
      return;
    }
    var options, queueing := CollectOptions(g, ship, occupied, cx.safe, cx.unsafe, plan, cx.penalty);
    var scared := TurnsRemaining(g) <= distance + cx.safetyMargin;
    var best := PickBest(options, queueing, scared);
    if best.None? {
      assert a == Step(Still, None);
      r := CommitStep(mr, ship, Still, None, plan);
    } else {
      assert a == Step(best.value.direction, None);
      r := CommitStep(mr, ship, best.value.direction, None, plan);
    }
  }

  /** A successful return leaves the ship without a pending move. */
  lemma CarriedOut(board: GameMap, a: Action, ship: Ship, plan: Option<DropoffPlan>,
                   before: Ledger, after: Ledger, r: Result<Option<DropoffPlan>>)
    requires ValidMap(board) && Carries(board, a, ship, plan, before, after, r)
    requires r.Ok? && after.remaining <= before.remaining
    ensures ship !in after.remaining
  {
  }

  // ---------------------------------------------------------------------
  // getReturningMoves (lines 343-383)

  /** The BotConstants values the returning code reads. */
  datatype ReturnTuning = ReturnTuning(
    safeRushFactor: real,              // SAFE_RUSH_FACTOR
    unsafeRushFactor: real,            // UNSAFE_RUSH_FACTOR
    abandonGuardDuty: int,             // ABANDON_GUARD_DUTY
    haliteToAlwaysReturn: real,        // HALITE_TO_ALWAYS_RETURN
    returnRatio: real,                 // RETURN_RATIO
    returnSpeed: real,                 // RETURN_SPEED
    assumedReturningProportion: real,  // ASSUMED_RETURNING_PROPORTION
    stayingReturnWeight: real,         // STAYING_RETURN_WEIGHT
    unsafePenalty: int,                // RETURNING_UNSAFE_PENALTY
    safetyMargin: int)                 // RETURN_SAFETY_MARGIN

  /** The remaining ships marked as returning. */
  function Returners(remaining: set<Ship>, returningIds: set<nat>): (r: set<Ship>)
    ensures forall s :: s in r <==> s in remaining && s.id in returningIds
  {
    set s | s in remaining && s.id in returningIds
  }

  /** Endgame mode (lines 371-376): more ships marked returning than the
      turns left times UNSAFE_RUSH_FACTOR. */
  predicate SuicideOnDropoff(g: Game, returningIds: set<nat>, k: ReturnTuning)
  {
    (|returningIds| as real) > (TurnsRemaining(g) as real) * k.unsafeRushFactor
  }

  /** getReturningMoves: the returning ships still without a command are
      routed one by one in ReturnerComparator order, against the routes
      avoiding cells next to enemies and those avoiding enemy cells only;
      the first exception stops the loop. Every returner that had no
      command has one afterwards; other ships leave the remaining set only
      when forced; and the plan's site never changes. */
  method GetReturningMoves(mr: MoveRegister, k: ReturnTuning, returningIds: set<nat>, rushingIds: set<nat>,
                           plan: Option<DropoffPlan>, miningValue: map<Position, MiningScores.Score>,
                           exceptionalHaliteNeeded: int)
    returns (r: Result<Option<DropoffPlan>>)
    requires mr.Valid() && Routing(mr.game, plan, 0, true).Valid()
    requires forall s :: s in mr.remainingShips ==> OnMap(mr.game.board, s.position)
    modifies mr
    ensures mr.Valid()
    ensures Evolved(old(mr.State()), mr.State(), Returners(old(mr.remainingShips), returningIds))
    ensures r.Ok? ==> forall s :: s in Returners(old(mr.remainingShips), returningIds) ==> s !in mr.remainingShips
    ensures r.Ok? ==> (r.value.Some? <==> plan.Some?)
    ensures r.Ok? && plan.Some? ==> r.value.value.destination == plan.value.destination
  {
    var g := mr.game;
    var safe := BuildRouteMap(Routing(g, plan, 0, true));
    var unsafe := BuildRouteMap(Routing(g, plan, 0, false));
    var returners := Returners(mr.remainingShips, returningIds);
    var list := SortReturners(g, safe, plan, returners);
    var suicide := SuicideOnDropoff(g, returningIds, k);
    var cx := ReturnContext(safe, unsafe, suicide, rushingIds != {}, miningValue, exceptionalHaliteNeeded,
                            k.stayingReturnWeight, k.unsafePenalty, k.safetyMargin);
    r := RouteReturners(mr, list, returners, plan, cx);
  }

  /** The loop of lines 379-382 over the sorted returners. */
  method RouteReturners(mr: MoveRegister, list: seq<Ship>, ghost returners: set<Ship>, plan: Option<DropoffPlan>, cx: ReturnContext)
    returns (r: Result<Option<DropoffPlan>>)
    requires mr.Valid() && forall s :: s in list <==> s in returners
    requires forall s :: s in list ==> OnMap(mr.game.board, s.position)
    modifies mr
    ensures mr.Valid()
    ensures Evolved(old(mr.State()), mr.State(), returners)
    ensures r.Ok? ==> forall s :: s in returners ==> s !in mr.remainingShips
    ensures r.Ok? ==> (r.value.Some? <==> plan.Some?)
    ensures r.Ok? && plan.Some? ==> r.value.value.destination == plan.value.destination
  {
    var current := plan;
    EvolvedRefl(mr.State());
    EvolvedWiden(mr.State(), mr.State(), {}, returners);
    var i := 0;
    while i < |list|
      invariant 0 <= i <= |list|
      invariant mr.Valid()
      invariant Evolved(old(mr.State()), mr.State(), returners)
      invariant forall j :: 0 <= j < i ==> list[j] !in mr.remainingShips
      invariant current.Some? <==> plan.Some?
      invariant plan.Some? ==> current.value.destination == plan.value.destination
    {
      var ship := list[i];
      ghost var before := mr.State();
      var step := ReturnOne(mr, ship, current, cx);
      EvolvedWiden(before, mr.State(), {ship}, returners);
      EvolvedTrans(old(mr.State()), before, mr.State(), returners);
      if step.Err? {
        return Err(step.failure);
      }
      current := step.value;
      i := i + 1;
    }
    forall s | s in returners
      ensures s !in mr.remainingShips
    {
      var j :| 0 <= j < |list| && list[j] == s;
    }
    r := Ok(current);
  }

  /** One pass of the loop of lines 379-382: what GetReturningMove
      guarantees, as the loop needs it. */
  method ReturnOne(mr: MoveRegister, ship: Ship, plan: Option<DropoffPlan>, cx: ReturnContext)
    returns (r: Result<Option<DropoffPlan>>)
    requires mr.Valid() && OnMap(mr.game.board, ship.position)
    modifies mr
    ensures mr.Valid() && Evolved(old(mr.State()), mr.State(), {ship})
    ensures r.Ok? ==> ship !in mr.remainingShips
    ensures r.Ok? ==> (r.value.Some? <==> plan.Some?)
    ensures r.Ok? && plan.Some? ==> r.value.value.destination == plan.value.destination
  {
    ghost var a := ReturningAction(mr.game, ship, mr.occupiedPositions, plan, cx);
    ghost var before := mr.State();
    r := GetReturningMove(mr, ship, plan, cx);
    if r.Ok? {
      CarriedOut(mr.game.board, a, ship, plan, before, mr.State(), r);
      if a.Convert? {
        ReturningActionFailsOnlyAtDropoff(mr.game, ship, before.occupied, plan, cx);
        ReturningActionAtDropoff(mr.game, ship, before.occupied, plan, cx);
      }
    }
  }

  // ---------------------------------------------------------------------
  // arrayMin (lines 241-249)

  /** The first `w` entries of every row, row after row: the order in
      which arrayMin visits a table. */
  function Flatten(a: seq<seq<MiningScores.Score>>, w: nat): (r: seq<MiningScores.Score>)
    requires forall i :: 0 <= i < |a| ==> w <= |a[i]|
  {
    if a == [] then [] else Flatten(a[..|a| - 1], w) + a[|a| - 1][..w]
  }

  /** Every visited entry is in the flattened sequence, and nothing else. */
  lemma {:induction false} FlattenMember(a: seq<seq<MiningScores.Score>>, w: nat, e: MiningScores.Score)
    requires forall i :: 0 <= i < |a| ==> w <= |a[i]|
    ensures e in Flatten(a, w) <==> exists i, j :: 0 <= i < |a| && 0 <= j < w && a[i][j] == e
    decreases |a|
  {
    if a != [] {
      var init := a[..|a| - 1];
      FlattenMember(init, w, e);
      assert forall i :: 0 <= i < |init| ==> init[i] == a[i];
      if e in a[|a| - 1][..w] {
        var j :| 0 <= j < w && a[|a| - 1][..w][j] == e;
        assert a[|a| - 1][j] == e;
      }
      if exists i, j :: 0 <= i < |a| && 0 <= j < w && a[i][j] == e {
        var i, j :| 0 <= i < |a| && 0 <= j < w && a[i][j] == e;
        if i == |a| - 1 {
          assert a[|a| - 1][..w][j] == e;
        } else {
          assert init[i][j] == e;
        }
      }
    }
  }

  /** Java's running minimum with `<` on doubles, starting from `init`: an
      entry replaces it only when strictly below. */
  function RunningMin(s: seq<MiningScores.Score>, init: MiningScores.Score): MiningScores.Score
  {
    if s == [] then init
    else
      var m := RunningMin(s[..|s| - 1], init);
      if Mining.Below(s[|s| - 1], m) then s[|s| - 1] else m
  }

  /** The running minimum is the start or an entry, and neither the start
      nor any entry is below it. */
  lemma {:induction false} RunningMinIsLeast(s: seq<MiningScores.Score>, init: MiningScores.Score)
    ensures RunningMin(s, init) == init || RunningMin(s, init) in s
    ensures !Mining.Below(init, RunningMin(s, init))
    ensures forall e :: e in s ==> !Mining.Below(e, RunningMin(s, init))
    decreases |s|
  {
    if s != [] {
      var init' := s[..|s| - 1];
      RunningMinIsLeast(init', init);
      assert forall e :: e in s ==> e in init' || e == s[|s| - 1] by {
        assert s == init' + [s[|s| - 1]];
      }
    }
  }

  /** A table arrayMin can read: a first row that is not empty, and no row
      shorter than it. */
  predicate Readable(a: seq<seq<MiningScores.Score>>)
  {
    |a| > 0 && |a[0]| > 0 && forall i :: 0 <= i < |a| ==> |a[0]| <= |a[i]|
  }

  /** What arrayMin returns. */
  function TableMin(a: seq<seq<MiningScores.Score>>): MiningScores.Score
    requires Readable(a)
  {
    RunningMin(Flatten(a, |a[0]|), a[0][0])
  }

  /** The minimum is an entry of the table's first |a[0]| columns that no
      such entry is below. */
  lemma TableMinIsLeast(a: seq<seq<MiningScores.Score>>)
    requires Readable(a)
    ensures exists i, j :: 0 <= i < |a| && 0 <= j < |a[0]| && a[i][j] == TableMin(a)
    ensures forall i, j :: 0 <= i < |a| && 0 <= j < |a[0]| ==> !Mining.Below(a[i][j], TableMin(a))
  {
    var w := |a[0]|;
    var m := TableMin(a);
    RunningMinIsLeast(Flatten(a, w), a[0][0]);
    FlattenMember(a, w, m);
    forall i, j | 0 <= i < |a| && 0 <= j < w
      ensures !Mining.Below(a[i][j], m)
    {
      FlattenMember(a, w, a[i][j]);
    }
  }

  lemma FlattenSnoc(a: seq<seq<MiningScores.Score>>, w: nat, i: int)
    requires forall k :: 0 <= k < |a| ==> w <= |a[k]|
    requires 0 <= i < |a|
    ensures Flatten(a[..i + 1], w) == Flatten(a[..i], w) + a[i][..w]
  {
    assert a[..i + 1][..i] == a[..i];
  }

  /** arrayMin(array). */
  method ArrayMin(a: seq<seq<MiningScores.Score>>) returns (min: MiningScores.Score)
    requires Readable(a)
    ensures min == TableMin(a)
  {
    var w := |a[0]|;
    min := a[0][0];
    var i := 0;
    while i < |a|
      invariant 0 <= i <= |a|
      invariant min == RunningMin(Flatten(a[..i], w), a[0][0])
    {
      ghost var done := Flatten(a[..i], w);
      var j := 0;
      assert done + a[i][..0] == done;
      while j < w
        invariant 0 <= j <= w
        invariant min == RunningMin(done + a[i][..j], a[0][0])
      {
        assert done + a[i][..j + 1] == (done + a[i][..j]) + [a[i][j]];
        if Mining.Below(a[i][j], min) {
          min := a[i][j];
        }
        j := j + 1;
      }
      assert a[i][..j] == a[i][..w];
      FlattenSnoc(a, w, i);
      i := i + 1;
    }
    assert a[..|a|] == a;
  }

  // ---------------------------------------------------------------------
  // fixReturningShips (lines 251-341)

  /** The three collections fixReturningShips updates: the ids of ships
      heading home, of those rushing home at the end of the game, and of
      guard ships with the structure each guards. */
  datatype ReturnSets = ReturnSets(returning: set<nat>, rushing: set<nat>, guards: map<nat, Position>)

  /** The state the bot keeps between turns: every rushing ship is
      returning, and no guard is. */
  predicate Coherent(sets: ReturnSets)
  {
    sets.rushing <= sets.returning && forall id :: id in sets.guards ==> id !in sets.returning
  }

  /** Lines 273-274: the turns left are fewer than the safe route home times
      SAFE_RUSH_FACTOR, or, without a safe route, than UNSAFE_RUSH_FACTOR
      times the distance to the nearest dropoff. */
  predicate Rushing(g: Game, safe: RouteMap, plan: Option<DropoffPlan>, k: ReturnTuning, ship: Ship)
  {
    var left := TurnsRemaining(g) as real;
    match safe.SafeDistance(ship.position)
    case Some(t) => left < (t as real) * k.safeRushFactor
    case None => left < k.unsafeRushFactor * (DropoffDistance(g, ship.position, plan) as real)
  }

  /** Line 279: the ship stands on a structure of ours. */
  predicate OnOwnStructure(g: Game, ship: Ship)
  {
    g.cells(ship.position).structureOwner == Some(g.me.id)
  }

  /** Line 308: the cargo reaches HALITE_TO_ALWAYS_RETURN of a full hold. */
  predicate Full(g: Game, k: ReturnTuning, ship: Ship)
  {
    (ship.halite as real) >= (g.consts.maxHalite as real) * k.haliteToAlwaysReturn
  }

  /** Lines 313-326: away from a dropoff with some cargo, the cargo per turn
      home (integer division) beats RETURN_RATIO * MAX_HALITE over the best
      mining score. Over +Infinity that bound is 0; over 0 it is an
      infinity of the numerator's sign, or NaN when the numerator is 0. */
  predicate Banks(g: Game, plan: Option<DropoffPlan>, k: ReturnTuning, ship: Ship, best: MiningScores.Score)
  {
    var distance := DropoffDistance(g, ship.position, plan);
    distance > 0 && ship.halite > 0 &&
    var perTurn := (ship.halite / distance) as real;
    var bound := k.returnRatio * (g.consts.maxHalite as real);
    match best
    case Infinite => perTurn > 0.0
    case Finite(x) => if x == 0.0 then bound < 0.0 else perTurn > bound / x
  }

  /** The table arrayMin can read for the ship: present in the mining
      scores (MiningFunctions.miningScores.get is not null) and non-empty. */
  predicate ScoresCover(scores: Option<map<Ship, seq<seq<MiningScores.Score>>>>, ship: Ship)
  {
    scores.Some? ==> ship in scores.value && Readable(scores.value[ship])
  }

  /** Lines 285-315: the ship reaches the banking test, which reads its
      mining scores: it keeps no guard post, does not start rushing, is not
      returning and is not full, and the scores are of this turn. */
  predicate Consults(g: Game, safe: RouteMap, plan: Option<DropoffPlan>, k: ReturnTuning,
                     scores: Option<map<Ship, seq<seq<MiningScores.Score>>>>, sets: ReturnSets, ship: Ship)
  {
    && !(ship.id in sets.guards && ship.halite <= k.abandonGuardDuty)
    && !(Rushing(g, safe, plan, k, ship) && !OnOwnStructure(g, ship))
    && ship.id !in sets.returning
    && !Full(g, k, ship)
    && scores.Some?
  }

  /** Lines 315-326: the scores are of this turn, the ship's table is
      readable, and the banking test passes on its best score. */
  predicate BanksOnScores(g: Game, plan: Option<DropoffPlan>, k: ReturnTuning,
                          scores: Option<map<Ship, seq<seq<MiningScores.Score>>>>, ship: Ship)
  {
    scores.Some? && ScoresCover(scores, ship) && Banks(g, plan, k, ship, TableMin(scores.value[ship]))
  }

  /** Lines 281-327 for one ship: a guard with too much halite abandons its
      post; a guard keeps guarding; otherwise a rushing ship off our
      structures starts rushing home; a returning ship that has reached one
      of our structures stops, and becomes a guard of the nearest dropoff if
      it was rushing; a full ship returns; and, when the mining scores are
      of this turn, a ship whose banking test passes returns. A ship that
      reaches the banking test without a readable table is the
      NullPointerException of line 316. */
  function ReturnStep(g: Game, safe: RouteMap, plan: Option<DropoffPlan>, k: ReturnTuning,
                      scores: Option<map<Ship, seq<seq<MiningScores.Score>>>>, sets: ReturnSets, ship: Ship): Result<ReturnSets>
  {
    var id := ship.id;
    var onDropoff := OnOwnStructure(g, ship);
    var guards := if id in sets.guards && ship.halite > k.abandonGuardDuty then sets.guards - {id} else sets.guards;
    if id in guards then Ok(sets)
    else if Rushing(g, safe, plan, k, ship) && !onDropoff then
      Ok(ReturnSets(sets.returning + {id}, sets.rushing + {id}, guards))
    else if id in sets.returning then
      if !onDropoff then Ok(sets.(guards := guards))
      else if id in sets.rushing then
        Ok(ReturnSets(sets.returning - {id}, sets.rushing - {id}, guards[id := NearestDropoffOf(g, ship.position, plan)]))
      else Ok(ReturnSets(sets.returning - {id}, sets.rushing, guards))
    else if Full(g, k, ship) then Ok(sets.(returning := sets.returning + {id}, guards := guards))
    else if scores.None? then Ok(sets.(guards := guards))
    else if !ScoresCover(scores, ship) then Err(NoScores)
    else if Banks(g, plan, k, ship, TableMin(scores.value[ship])) then
      Ok(sets.(returning := sets.returning + {id}, guards := guards))
    else Ok(sets.(guards := guards))
  }

  /** The decision for one ship in closed form. It fails, with NoScores,
      exactly when the ship reaches the banking test without a readable
      table. Otherwise a guard that keeps its post changes nothing; the ship
      returns exactly when it is off our structures and rushing or already
      returning, or was not returning and is full or banks; it rushes
      exactly when it newly rushes, or rushed before and has not just
      arrived; and it becomes a guard of the nearest dropoff exactly when it
      arrives while rushing. */
  lemma ReturnStepDecides(g: Game, safe: RouteMap, plan: Option<DropoffPlan>, k: ReturnTuning,
                          scores: Option<map<Ship, seq<seq<MiningScores.Score>>>>, sets: ReturnSets, ship: Ship)
    ensures var r := ReturnStep(g, safe, plan, k, scores, sets, ship);
      var id := ship.id;
      var kept := id in sets.guards && ship.halite <= k.abandonGuardDuty;
      var onDropoff := OnOwnStructure(g, ship);
      var rushes := Rushing(g, safe, plan, k, ship) && !onDropoff;
      var banks := BanksOnScores(g, plan, k, scores, ship);
      var arrives := id in sets.returning && onDropoff;
      && (r.Err? <==> Consults(g, safe, plan, k, scores, sets, ship) && !ScoresCover(scores, ship))
      && (r.Err? ==> r.failure == NoScores)
      && (r.Ok? && kept ==> r.value == sets)
      && (r.Ok? && !kept ==> (id in r.value.returning <==>
            (!onDropoff && (Rushing(g, safe, plan, k, ship) || id in sets.returning)) || (id !in sets.returning && (Full(g, k, ship) || banks))))
      && (r.Ok? && !kept ==> (id in r.value.rushing <==> rushes || (id in sets.rushing && !arrives)))
      && (r.Ok? && !kept ==> (id in r.value.guards <==> arrives && id in sets.rushing))
      && (r.Ok? && !kept && arrives && id in sets.rushing ==> id in r.value.guards && r.value.guards[id] == NearestDropoffOf(g, ship.position, plan))
  {
  }

  /** Only the ship's own entries change. */
  lemma ReturnStepIsLocal(g: Game, safe: RouteMap, plan: Option<DropoffPlan>, k: ReturnTuning,
                          scores: Option<map<Ship, seq<seq<MiningScores.Score>>>>, sets: ReturnSets, ship: Ship, other: nat)
    requires other != ship.id
    ensures var r := ReturnStep(g, safe, plan, k, scores, sets, ship);
      r.Ok? ==>
      && (other in r.value.returning <==> other in sets.returning)
      && (other in r.value.rushing <==> other in sets.rushing)
      && (other in r.value.guards <==> other in sets.guards)
      && (other in sets.guards ==> r.value.guards[other] == sets.guards[other])
  {
  }

  /** One ship's decision keeps rushing ships returning and guards apart
      from returning ships. */
  lemma ReturnStepKeepsCoherent(g: Game, safe: RouteMap, plan: Option<DropoffPlan>, k: ReturnTuning,
                                scores: Option<map<Ship, seq<seq<MiningScores.Score>>>>, sets: ReturnSets, ship: Ship)
    requires Coherent(sets)
    ensures var r := ReturnStep(g, safe, plan, k, scores, sets, ship);
      r.Ok? ==> Coherent(r.value)
  {
  }

  /** The expected return turn of a returning ship (line 331): its dropoff
      distance times RETURN_SPEED, cast to int (towards zero). */
  function TruncateToInt(x: real): (r: int)
    ensures x >= 0.0 ==> r as real <= x < r as real + 1.0
    ensures x < 0.0 ==> r as real - 1.0 < x <= r as real
  {
    if x >= 0.0 then x.Floor else -((-x).Floor)
  }

  /** Line 331: the expected return turn. */
  function ReturnTurn(g: Game, plan: Option<DropoffPlan>, k: ReturnTuning, ship: Ship): int
  {
    TruncateToInt(DropoffDistance(g, ship.position, plan) as real * k.returnSpeed)
  }

  /** Line 333: the halite expected from the ship. */
  function ReturnShare(k: ReturnTuning, ship: Ship): real
  {
    ship.halite as real * k.assumedReturningProportion
  }

  /** Lines 329-335: a ship `id` still returning after its decision files
      `share` under turn `t` (haliteAtTime.getOrDefault, add, put). */
  function Record(sets: ReturnSets, times: map<int, seq<real>>, id: nat, t: int, share: real): map<int, seq<real>>
  {
    if id !in sets.returning then times
    else times[t := (if t in times then times[t] else []) + [share]]
  }

  /** A ship that is not returning files nothing; a returning one appends
      its share to the list of turn `t` and leaves every other list as it
      was. */
  lemma RecordAppends(sets: ReturnSets, times: map<int, seq<real>>, id: nat, t: int, share: real)
    ensures id !in sets.returning ==> Record(sets, times, id, t, share) == times
    ensures id in sets.returning ==>
      var filed := Record(sets, times, id, t, share);
      && filed.Keys == times.Keys + {t}
      && |filed[t]| == (if t in times then |times[t]| else 0) + 1
      && filed[t][|filed[t]| - 1] == share
      && (t in times ==> filed[t][..|times[t]|] == times[t])
      && forall u :: u in times && u != t ==> filed[u] == times[u]
  {
  }

  /** The loop of lines 266-336 over `ships`, in order; the first ship
      that fails ends the pass. */
  function FixAll(g: Game, safe: RouteMap, plan: Option<DropoffPlan>, k: ReturnTuning,
                  scores: Option<map<Ship, seq<seq<MiningScores.Score>>>>,
                  sets: ReturnSets, times: map<int, seq<real>>, ships: seq<Ship>): Result<(ReturnSets, map<int, seq<real>>)>
  {
    if ships == [] then Ok((sets, times))
    else
      var ship := ships[|ships| - 1];
      var prior := FixAll(g, safe, plan, k, scores, sets, times, ships[..|ships| - 1]);
      if prior.Err? then prior
      else
        var step := ReturnStep(g, safe, plan, k, scores, prior.value.0, ship);
        if step.Err? then Err(step.failure)
        else Ok((step.value, Record(step.value, prior.value.1, ship.id, ReturnTurn(g, plan, k, ship), ReturnShare(k, ship))))
  }

  /** Over a whole turn, coherence is kept. */
  lemma {:induction false} FixAllKeepsCoherent(g: Game, safe: RouteMap, plan: Option<DropoffPlan>, k: ReturnTuning,
                                               scores: Option<map<Ship, seq<seq<MiningScores.Score>>>>,
                                               sets: ReturnSets, times: map<int, seq<real>>, ships: seq<Ship>)
    requires Coherent(sets)
    ensures var r := FixAll(g, safe, plan, k, scores, sets, times, ships);
      r.Ok? ==> Coherent(r.value.0)
    decreases |ships|
  {
    if ships != [] {
      var init := ships[..|ships| - 1];
      FixAllKeepsCoherent(g, safe, plan, k, scores, sets, times, init);
      var prior := FixAll(g, safe, plan, k, scores, sets, times, init);
      if prior.Ok? {
        ReturnStepKeepsCoherent(g, safe, plan, k, scores, prior.value.0, ships[|ships| - 1]);
      }
    }
  }

  /** Ships not considered keep their entries. */
  lemma {:induction false} FixAllIsLocal(g: Game, safe: RouteMap, plan: Option<DropoffPlan>, k: ReturnTuning,
                                         scores: Option<map<Ship, seq<seq<MiningScores.Score>>>>,
                                         sets: ReturnSets, times: map<int, seq<real>>, ships: seq<Ship>, other: nat)
    requires forall s :: s in ships ==> s.id != other
    ensures var r := FixAll(g, safe, plan, k, scores, sets, times, ships);
      r.Ok? ==>
      && (other in r.value.0.returning <==> other in sets.returning)
      && (other in r.value.0.rushing <==> other in sets.rushing)
      && (other in r.value.0.guards <==> other in sets.guards)
      && (other in sets.guards ==> r.value.0.guards[other] == sets.guards[other])
    decreases |ships|
  {
    if ships != [] {
      var init := ships[..|ships| - 1];
      FixAllIsLocal(g, safe, plan, k, scores, sets, times, init, other);
      var prior := FixAll(g, safe, plan, k, scores, sets, times, init);
      if prior.Ok? {
        ReturnStepIsLocal(g, safe, plan, k, scores, prior.value.0, ships[|ships| - 1], other);
      }
    }
  }

  /** The pass fails only with NoScores and only because a ship lacks a
      readable table; so it succeeds when every ship has one, and when the
      scores are not of this turn. */
  lemma {:induction false} FixAllFailsOnlyUnscored(g: Game, safe: RouteMap, plan: Option<DropoffPlan>, k: ReturnTuning,
                                                   scores: Option<map<Ship, seq<seq<MiningScores.Score>>>>,
                                                   sets: ReturnSets, times: map<int, seq<real>>, ships: seq<Ship>)
    ensures var r := FixAll(g, safe, plan, k, scores, sets, times, ships);
      && (r.Err? ==> r.failure == NoScores && exists s :: s in ships && !ScoresCover(scores, s))
      && ((forall s :: s in ships ==> ScoresCover(scores, s)) ==> r.Ok?)
    decreases |ships|
  {
    if ships != [] {
      var init := ships[..|ships| - 1];
      var ship := ships[|ships| - 1];
      FixAllFailsOnlyUnscored(g, safe, plan, k, scores, sets, times, init);
      var prior := FixAll(g, safe, plan, k, scores, sets, times, init);
      if prior.Err? {
        var s :| s in init && !ScoresCover(scores, s);
        assert s in ships;
      } else {
        ReturnStepDecides(g, safe, plan, k, scores, prior.value.0, ship);
        if ReturnStep(g, safe, plan, k, scores, prior.value.0, ship).Err? {
          assert ship in ships;
        }
      }
    }
  }

  /** One more ship on a prefix that did not fail. */
  lemma FixAllStep(g: Game, safe: RouteMap, plan: Option<DropoffPlan>, k: ReturnTuning,
                   scores: Option<map<Ship, seq<seq<MiningScores.Score>>>>,
                   sets: ReturnSets, times: map<int, seq<real>>, ships: seq<Ship>, i: nat)
    requires i < |ships| && FixAll(g, safe, plan, k, scores, sets, times, ships[..i]).Ok?
    ensures var prior := FixAll(g, safe, plan, k, scores, sets, times, ships[..i]).value;
      var step := ReturnStep(g, safe, plan, k, scores, prior.0, ships[i]);
      FixAll(g, safe, plan, k, scores, sets, times, ships[..i + 1])
      == if step.Err? then Err(step.failure)
         else Ok((step.value, Record(step.value, prior.1, ships[i].id, ReturnTurn(g, plan, k, ships[i]), ReturnShare(k, ships[i]))))
  {
    assert ships[..i + 1][..i] == ships[..i];
  }

  /** A failed prefix fails the whole pass with the same failure; the
      whole of the ships is its own prefix. */
  lemma {:induction false} FixAllStaysFailed(g: Game, safe: RouteMap, plan: Option<DropoffPlan>, k: ReturnTuning,
                                             scores: Option<map<Ship, seq<seq<MiningScores.Score>>>>,
                                             sets: ReturnSets, times: map<int, seq<real>>, ships: seq<Ship>, i: nat)
    requires i <= |ships| && (i == |ships| || FixAll(g, safe, plan, k, scores, sets, times, ships[..i]).Err?)
    ensures FixAll(g, safe, plan, k, scores, sets, times, ships) == FixAll(g, safe, plan, k, scores, sets, times, ships[..i])
    decreases |ships| - i
  {
    if i < |ships| {
      assert ships[..i + 1][..i] == ships[..i];
      FixAllStaysFailed(g, safe, plan, k, scores, sets, times, ships, i + 1);
    } else {
      assert ships[..i] == ships;
    }
  }

  /** One pass of the loop of lines 266-336; arrayMin is called exactly
      where the source calls it. */
  method DecideReturn(g: Game, safe: RouteMap, plan: Option<DropoffPlan>, k: ReturnTuning,
                      scores: Option<map<Ship, seq<seq<MiningScores.Score>>>>, sets: ReturnSets, ship: Ship)
    returns (r: Result<ReturnSets>)
    ensures r == ReturnStep(g, safe, plan, k, scores, sets, ship)
  {
    var id := ship.id;
    var onDropoff := OnOwnStructure(g, ship);
    var guards := sets.guards;
    if id in guards && ship.halite > k.abandonGuardDuty {
      guards := guards - {id};
    }
    var after;
    if id in guards {
      after := sets;
    } else if Rushing(g, safe, plan, k, ship) && !onDropoff {
      after := ReturnSets(sets.returning + {id}, sets.rushing + {id}, guards);
    } else if id in sets.returning {
      after := sets.(guards := guards);
      if onDropoff {
        after := after.(returning := after.returning - {id});
        if id in sets.rushing {
          after := after.(guards := after.guards[id := NearestDropoffOf(g, ship.position, plan)], rushing := after.rushing - {id});
        }
      }
    } else if Full(g, k, ship) {
      after := sets.(returning := sets.returning + {id}, guards := guards);
    } else {
      after := sets.(guards := guards);
      if scores.Some? {
        if !ScoresCover(scores, ship) {
          return Err(NoScores);
        }
        var best := ArrayMin(scores.value[ship]);
        if Banks(g, plan, k, ship, best) {
          after := after.(returning := after.returning + {id});
        }
      }
    }
    r := Ok(after);
  }

  /** fixReturningShips: builds the routes avoiding cells next to enemies,
      decides each ship in turn, and returns the halite expected home per
      turn, or the failure of the first ship that fails. The routes are
      handed out for the statement about the result. */
  method FixReturningShips(g: Game, ships: seq<Ship>, sets0: ReturnSets, plan: Option<DropoffPlan>, k: ReturnTuning,
                           scores: Option<map<Ship, seq<seq<MiningScores.Score>>>>)
    returns (r: Result<(ReturnSets, map<int, seq<real>>)>, ghost safe: RouteMap)
    requires Routing(g, plan, 0, true).Valid()
    ensures SameCells(Routing(g, plan, 0, true), safe) && Layered(Routing(g, plan, 0, true), safe)
    ensures r == FixAll(g, safe, plan, k, scores, sets0, map[], ships)
  {
    var routes := BuildRouteMap(Routing(g, plan, 0, true));
    safe := routes;
    r := DecideAll(g, routes, ships, sets0, plan, k, scores, map[]);
  }

  /** The loop of lines 266-336 against the routes already built,
      starting from the expected returns `times0` (an empty map at line
      261). */
  method DecideAll(g: Game, routes: RouteMap, ships: seq<Ship>, sets0: ReturnSets, plan: Option<DropoffPlan>, k: ReturnTuning,
                   scores: Option<map<Ship, seq<seq<MiningScores.Score>>>>, times0: map<int, seq<real>>)
    returns (r: Result<(ReturnSets, map<int, seq<real>>)>)
    ensures r == FixAll(g, routes, plan, k, scores, sets0, times0, ships)
  {
    r := Ok((sets0, times0));
    var i := 0;
    while i < |ships| && r.Ok?
      invariant 0 <= i <= |ships|
      invariant r == FixAll(g, routes, plan, k, scores, sets0, times0, ships[..i])
    {
      r := DecideShip(g, routes, ships, sets0, times0, plan, k, scores, i, r);
      i := i + 1;
    }
    FixAllStaysFailed(g, routes, plan, k, scores, sets0, times0, ships, i);
  }

  /** The body of the loop for ships[i]: its decision, then the record of
      its expected return. */
  method DecideShip(g: Game, routes: RouteMap, ships: seq<Ship>, sets0: ReturnSets, times0: map<int, seq<real>>, plan: Option<DropoffPlan>, k: ReturnTuning,
                    scores: Option<map<Ship, seq<seq<MiningScores.Score>>>>, i: nat,
                    prior: Result<(ReturnSets, map<int, seq<real>>)>)
    returns (r: Result<(ReturnSets, map<int, seq<real>>)>)
    requires i < |ships| && prior.Ok? && prior == FixAll(g, routes, plan, k, scores, sets0, times0, ships[..i])
    ensures r == FixAll(g, routes, plan, k, scores, sets0, times0, ships[..i + 1])
  {
    var (sets, haliteAtTime) := prior.value;
    var ship := ships[i];
    FixAllStep(g, routes, plan, k, scores, sets0, times0, ships, i);
    var step := DecideReturn(g, routes, plan, k, scores, sets, ship);
    if step.Err? {
      return Err(step.failure);
    }
    r := Ok((step.value, Record(step.value, haliteAtTime, ship.id, ReturnTurn(g, plan, k, ship), ReturnShare(k, ship))));
  }
}
