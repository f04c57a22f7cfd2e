/** The toroidal board: directions, positions, distances and offsets
    (hlt/GameMap.java and hlt/Position.java). */
module Geometry {
  import opened Wrappers

  datatype Direction = North | South | East | West | Still

  /** Direction.ALL_CARDINALS, in the order the starter kit declares it. */
  const AllCardinals: seq<Direction> := [North, South, East, West]

  /** The character a move command carries for each direction. */
  function DirChar(d: Direction): char
  {
    match d
    case North => 'n'
    case South => 's'
    case East => 'e'
    case West => 'w'
    case Still => 'o'
  }

  function CharDir(c: char): Option<Direction>
  {
    if c == 'n' then Some(North)
    else if c == 's' then Some(South)
    else if c == 'e' then Some(East)
    else if c == 'w' then Some(West)
    else if c == 'o' then Some(Still)
    else None
  }

  lemma DirCharRoundTrip(d: Direction)
    ensures CharDir(DirChar(d)) == Some(d)
  {
  }

  /** Positions are interned in the source, so reference equality and
      `equals` agree; here a position is a plain value. */
  datatype Position = Position(x: int, y: int)

  datatype GameMap = GameMap(width: int, height: int)

  predicate ValidMap(m: GameMap)
  {
    m.width > 0 && m.height > 0
  }

  predicate Square(m: GameMap)
  {
    ValidMap(m) && m.width == m.height
  }

  /** `cells` is indexed [x][y] with `height` rows of `width` cells. */
  predicate OnMap(m: GameMap, p: Position)
  {
    0 <= p.x < m.height && 0 <= p.y < m.width
  }

  function Abs(a: int): nat
  {
    if a < 0 then -a else a
  }

  function Min(a: int, b: int): int
  {
    if a <= b then a else b
  }

  lemma MulAtLeast(k: int, n: int)
    requires n > 0 && k >= 1
    ensures k * n >= n
  {
  }

  /** Integer division of a non-negative number brackets it between two
      consecutive multiples. */
  lemma DivBounds(h: int, k: int)
    requires h >= 0 && k > 0
    ensures 0 <= h / k <= h
    ensures (h / k) * k <= h < (h / k + 1) * k
  {
    var q, r := h / k, h % k;
    assert h == q * k + r;
    assert (q + 1) * k == q * k + k;
    if q > h {
      MulAtLeast(k, q);
      assert false;
    }
  }

  /** Euclidean division is unique: a = q*n + r with 0 <= r < n fixes both. */
  lemma ModUnique(a: int, n: int, q: int, r: int)
    requires n > 0 && 0 <= r < n && a == q * n + r
    ensures a % n == r && a / n == q
  {
    var q', r' := a / n, a % n;
    assert a == q' * n + r';
    if q > q' {
      assert (q - q') * n == r' - r;
      MulAtLeast(q - q', n);
      assert false;
    } else if q < q' {
      assert (q' - q) * n == r - r';
      MulAtLeast(q' - q, n);
      assert false;
    }
  }

  lemma ModRange(v: int, n: int)
    requires n > 0 && 0 <= v < 2 * n
    ensures v % n == if v < n then v else v - n
  {
    if v < n {
      ModUnique(v, n, 0, v);
    } else {
      ModUnique(v, n, 1, v - n);
    }
  }

  /** Java's `%`: the remainder truncates toward zero, so it takes the sign
      of the dividend (Dafny's `%` is Euclidean). */
  function JavaRem(a: int, b: int): (r: int)
    requires b > 0
    ensures -b < r < b
    ensures a >= 0 ==> r >= 0
    ensures a < 0 ==> r <= 0
    ensures -b < a < b ==> r == a
    ensures b <= a < 2 * b ==> r == a - b
  {
    if a >= 0 then
      ModRange(if a < 2 * b then a else 0, b);
      a % b
    else
      ModRange(if -a < b then -a else 0, b);
      -((-a) % b)
  }

  /** A dividend between two and three divisors loses two of them. */
  lemma RemAboveTwo(a: int, b: int)
    requires b > 0
    ensures 2 * b <= a < 3 * b ==> JavaRem(a, b) == a - 2 * b
  {
    if 2 * b <= a < 3 * b {
      ModUnique(a, b, 2, a - 2 * b);
    }
  }

  /** The wrap of a coordinate that is at most one board length outside. */
  function Wrap(n: int, v: int): int
  {
    if v < 0 then v + n else if v < n then v else v - n
  }

  /** GameMap.normaliseX: wraps an x coordinate by the map height. A
      coordinate more than one height below zero stays negative. */
  function NormaliseX(m: GameMap, x: int): (r: int)
    requires ValidMap(m)
    ensures -m.height <= x < 2 * m.height ==> r == Wrap(m.height, x)
    ensures x < -m.height ==> r <= 0
  {
    RemAboveTwo(x + m.height, m.height);
    JavaRem(x + m.height, m.height)
  }

  /** GameMap.normaliseY: wraps a y coordinate by the map width. */
  function NormaliseY(m: GameMap, y: int): (r: int)
    requires ValidMap(m)
    ensures -m.width <= y < 2 * m.width ==> r == Wrap(m.width, y)
    ensures y < -m.width ==> r <= 0
  {
    RemAboveTwo(y + m.width, m.width);
    JavaRem(y + m.width, m.width)
  }

  /** For x at or above minus one height, normaliseX lands on the board and
      differs from x by a whole number of heights; normaliseY likewise. */
  lemma NormaliseCongruent(m: GameMap, x: int, y: int)
    requires ValidMap(m) && x >= -m.height && y >= -m.width
    ensures 0 <= NormaliseX(m, x) < m.height && (NormaliseX(m, x) - x) % m.height == 0
    ensures 0 <= NormaliseY(m, y) < m.width && (NormaliseY(m, y) - y) % m.width == 0
  {
    RemainderCongruent(x + m.height, m.height);
    RemainderCongruent(y + m.width, m.width);
  }

  lemma RemainderCongruent(a: int, n: int)
    requires a >= 0 && n > 0
    ensures 0 <= JavaRem(a, n) < n && (JavaRem(a, n) - (a - n)) % n == 0
  {
    var q, r := a / n, a % n;
    assert a == q * n + r;
    assert r - (a - n) == (1 - q) * n;
    ModUnique(r - (a - n), n, 1 - q, 0);
  }

  /** The wrapped distance along one axis of length n: the source's
      `Math.min(dx, width - dx)`. */
  function AxisDistance(n: int, a: int, b: int): int
  {
    Min(Abs(a - b), n - Abs(a - b))
  }

  /** GameMap.calculateDistance(Position, Position). */
  function CalculateDistance(m: GameMap, source: Position, target: Position): int
  {
    AxisDistance(m.width, source.x, target.x) + AxisDistance(m.height, source.y, target.y)
  }

  /** GameMap.calculateDistance(int, int, int, int). */
  function CalculateDistanceXY(m: GameMap, x1: int, y1: int, x2: int, y2: int): int
  {
    AxisDistance(m.width, x1, x2) + AxisDistance(m.height, y1, y2)
  }

  /** GameMap.calculateDistance(int, int, Position). */
  function CalculateDistanceXYPos(m: GameMap, x: int, y: int, p: Position): int
  {
    AxisDistance(m.width, x, p.x) + AxisDistance(m.height, y, p.y)
  }

  lemma DistanceOverloadsAgree(m: GameMap, a: Position, b: Position)
    ensures CalculateDistanceXY(m, a.x, a.y, b.x, b.y) == CalculateDistance(m, a, b)
    ensures CalculateDistanceXYPos(m, a.x, a.y, b) == CalculateDistance(m, a, b)
  {
  }

  lemma AxisDistanceBounds(n: int, a: int, b: int)
    requires n > 0 && 0 <= a < n && 0 <= b < n
    ensures 0 <= AxisDistance(n, a, b) <= n / 2
    ensures AxisDistance(n, a, b) == AxisDistance(n, b, a)
    ensures AxisDistance(n, a, b) == 0 <==> a == b
  {
  }

  /** Distance on a square map is a symmetric, bounded measure that is zero
      exactly on equal positions. */
  lemma DistanceProperties(m: GameMap, a: Position, b: Position)
    requires Square(m) && OnMap(m, a) && OnMap(m, b)
    ensures 0 <= CalculateDistance(m, a, b) <= m.width / 2 + m.height / 2
    ensures CalculateDistance(m, a, b) == CalculateDistance(m, b, a)
    ensures CalculateDistance(m, a, b) == 0 <==> a == b
  {
    AxisDistanceBounds(m.width, a.x, b.x);
    AxisDistanceBounds(m.height, a.y, b.y);
  }

  /** The unit vector of each direction (the switch in directionalOffset). */
  function Vector(d: Direction): (int, int)
  {
    match d
    case North => (0, -1)
    case South => (0, 1)
    case East => (1, 0)
    case West => (-1, 0)
    case Still => (0, 0)
  }

  /** Position.withVectorOffset. */
  function WithVectorOffset(m: GameMap, p: Position, ox: int, oy: int): (r: Position)
    requires ValidMap(m)
    ensures p.x + ox >= -m.height && p.y + oy >= -m.width ==> OnMap(m, r)
  {
    Position(NormaliseX(m, p.x + ox), NormaliseY(m, p.y + oy))
  }

  /** Position.directionalOffset(Direction, GameMap). */
  function DirectionalOffset(m: GameMap, p: Position, d: Direction): (r: Position)
    requires ValidMap(m)
    ensures OnMap(m, p) ==> OnMap(m, r)
  {
    Position(NormaliseX(m, p.x + Vector(d).0), NormaliseY(m, p.y + Vector(d).1))
  }

  /** Position.directionalOffset(Direction, GameMap, int): r cells at once. */
  function DirectionalOffsetBy(m: GameMap, p: Position, d: Direction, r: int): (q: Position)
    requires ValidMap(m)
    ensures OnMap(m, p) && 0 <= r <= m.width && r <= m.height ==> OnMap(m, q)
  {
    Position(NormaliseX(m, p.x + r * Vector(d).0), NormaliseY(m, p.y + r * Vector(d).1))
  }

  /** A unit step is the vector offset of its direction. */
  lemma OffsetIsVector(m: GameMap, p: Position, d: Direction)
    requires ValidMap(m)
    ensures DirectionalOffset(m, p, d) == WithVectorOffset(m, p, Vector(d).0, Vector(d).1)
  {
  }

  lemma OffsetByOne(m: GameMap, p: Position, d: Direction)
    requires ValidMap(m)
    ensures DirectionalOffsetBy(m, p, d, 1) == DirectionalOffset(m, p, d)
  {
  }

  lemma OffsetStill(m: GameMap, p: Position)
    requires ValidMap(m) && OnMap(m, p)
    ensures DirectionalOffset(m, p, Still) == p
  {
  }

  /** A unit step moves along exactly one axis, by one, with wrap-around. */
  lemma OffsetCoordinates(m: GameMap, p: Position, d: Direction)
    requires ValidMap(m) && OnMap(m, p)
    ensures var q := DirectionalOffset(m, p, d);
      && (d == East ==> q == Position(if p.x + 1 == m.height then 0 else p.x + 1, p.y))
      && (d == West ==> q == Position(if p.x == 0 then m.height - 1 else p.x - 1, p.y))
      && (d == South ==> q == Position(p.x, if p.y + 1 == m.width then 0 else p.y + 1))
      && (d == North ==> q == Position(p.x, if p.y == 0 then m.width - 1 else p.y - 1))
      && (d == Still ==> q == p)
  {
  }

  /** Position.getSurroundingCardinals: the four neighbours in
      ALL_CARDINALS order. */
  function SurroundingCardinals(m: GameMap, p: Position): (r: seq<Position>)
    requires ValidMap(m)
    ensures |r| == 4
    ensures forall i :: 0 <= i < 4 ==> r[i] == DirectionalOffset(m, p, AllCardinals[i])
  {
    [DirectionalOffset(m, p, North), DirectionalOffset(m, p, South),
     DirectionalOffset(m, p, East), DirectionalOffset(m, p, West)]
  }

  /** Position.getDirectionTo; `None` is the IllegalArgumentException. */
  function GetDirectionTo(p: Position, dest: Position): Option<Direction>
  {
    if dest == p then Some(Still)
    else if dest.x == p.x + 1 || dest.x < p.x - 1 then Some(East)
    else if dest.x == p.x - 1 || dest.x > p.x + 1 then Some(West)
    else if dest.y == p.y - 1 || dest.y > p.y + 1 then Some(North)
    else if dest.y == p.y + 1 || dest.y < p.y - 1 then Some(South)
    else None
  }

  /** The "not adjacent" exception can never be raised: every position other
      than p passes one of the four tests. */
  lemma DirectionToNeverThrows(p: Position, dest: Position)
    ensures GetDirectionTo(p, dest).Some?
    ensures GetDirectionTo(p, dest) == Some(Still) <==> dest == p
  {
  }

  /** On a square map of side at least three, getDirectionTo inverts a unit
      step. (On smaller maps a step east can wrap onto the west neighbour.) */
  lemma DirectionToInvertsOffset(m: GameMap, p: Position, d: Direction)
    requires Square(m) && m.width >= 3 && OnMap(m, p)
    ensures GetDirectionTo(p, DirectionalOffset(m, p, d)) == Some(d)
  {
    OffsetCoordinates(m, p, d);
  }

  /** Side length three is needed: on a 2x2 map the step west from x = 0
      lands on x = 1, which getDirectionTo reads as east. */
  lemma DirectionToSmallMap()
    ensures GetDirectionTo(Position(0, 0), DirectionalOffset(GameMap(2, 2), Position(0, 0), West)) == Some(East)
  {
    OffsetCoordinates(GameMap(2, 2), Position(0, 0), West);
  }

  /** GameMap.getUnsafeMoves: the one or two directions that shorten the
      wrapped distance, horizontal first; STILL alone when source equals
      destination. */
  function GetUnsafeMoves(m: GameMap, source: Position, destination: Position): seq<Direction>
  {
    if source == destination then [Still]
    else
      var dx := Abs(source.x - destination.x);
      var dy := Abs(source.y - destination.y);
      var wrappedDx := m.width - dx;
      var wrappedDy := m.height - dy;
      var horizontal :=
        if source.x < destination.x then [if dx > wrappedDx then West else East]
        else if source.x > destination.x then [if dx < wrappedDx then West else East]
        else [];
      var vertical :=
        if source.y < destination.y then [if dy > wrappedDy then North else South]
        else if source.y > destination.y then [if dy < wrappedDy then North else South]
        else [];
      horizontal + vertical
  }

  /** The shape of getUnsafeMoves: STILL only for equal positions; otherwise
      one entry per differing axis, horizontal first, never STILL. */
  lemma UnsafeMovesShape(m: GameMap, s: Position, d: Position)
    ensures s == d ==> GetUnsafeMoves(m, s, d) == [Still]
    ensures s != d ==> Still !in GetUnsafeMoves(m, s, d)
    ensures s != d ==> |GetUnsafeMoves(m, s, d)| == (if s.x != d.x then 1 else 0) + (if s.y != d.y then 1 else 0)
    ensures s != d && s.x != d.x ==> GetUnsafeMoves(m, s, d)[0] in {East, West}
    ensures s != d && s.y != d.y ==> GetUnsafeMoves(m, s, d)[|GetUnsafeMoves(m, s, d)| - 1] in {North, South}
  {
  }

  /** The sign of the horizontal step getUnsafeMoves picks for a != b. */
  function AxisStep(n: int, a: int, b: int): int
  {
    var dx := Abs(a - b);
    if a < b then (if dx > n - dx then -1 else 1)
    else (if dx < n - dx then -1 else 1)
  }

  /** One step along an axis in the direction getUnsafeMoves picks shortens
      the wrapped distance on that axis by exactly one. */
  lemma {:induction false} AxisStepApproaches(n: int, a: int, b: int)
    requires n > 0 && 0 <= a < n && 0 <= b < n && a != b
    ensures AxisDistance(n, Wrap(n, a + AxisStep(n, a, b)), b) == AxisDistance(n, a, b) - 1
  {
  }

  /** Every direction getUnsafeMoves offers brings the source one step closer
      to the destination on a square map. */
  lemma {:induction false} UnsafeMovesApproach(m: GameMap, s: Position, d: Position, dir: Direction)
    requires Square(m) && OnMap(m, s) && OnMap(m, d) && s != d
    requires dir in GetUnsafeMoves(m, s, d)
    ensures CalculateDistance(m, DirectionalOffset(m, s, dir), d) == CalculateDistance(m, s, d) - 1
  {
    if dir == East || dir == West {
      HorizontalStep(m, s, d, dir);
    } else {
      UnsafeMovesShape(m, s, d);
      VerticalStep(m, s, d, dir);
    }
    StepApproaches(m, s, d, dir);
  }

  /** The arithmetic half of UnsafeMovesApproach: a step of the chosen sign
      along a differing axis. */
  lemma StepApproaches(m: GameMap, s: Position, d: Position, dir: Direction)
    requires Square(m) && OnMap(m, s) && OnMap(m, d)
    requires (dir == East || dir == West) ==> s.x != d.x && AxisStep(m.width, s.x, d.x) == Vector(dir).0
    requires (dir == North || dir == South) ==> s.y != d.y && AxisStep(m.width, s.y, d.y) == Vector(dir).1
    requires dir != Still
    ensures CalculateDistance(m, DirectionalOffset(m, s, dir), d) == CalculateDistance(m, s, d) - 1
  {
    if dir == East || dir == West {
      HorizontalApproach(m, s, d, dir);
    } else {
      VerticalApproach(m, s, d, dir);
    }
  }

  lemma HorizontalApproach(m: GameMap, s: Position, d: Position, dir: Direction)
    requires Square(m) && OnMap(m, s) && OnMap(m, d)
    requires (dir == East || dir == West) && s.x != d.x && AxisStep(m.width, s.x, d.x) == Vector(dir).0
    ensures CalculateDistance(m, DirectionalOffset(m, s, dir), d) == CalculateDistance(m, s, d) - 1
  {
    var n := m.width;
    assert DirectionalOffset(m, s, dir) == Position(Wrap(n, s.x + AxisStep(n, s.x, d.x)), s.y);
    AxisStepApproaches(n, s.x, d.x);
  }

  lemma VerticalApproach(m: GameMap, s: Position, d: Position, dir: Direction)
    requires Square(m) && OnMap(m, s) && OnMap(m, d)
    requires (dir == North || dir == South) && s.y != d.y && AxisStep(m.width, s.y, d.y) == Vector(dir).1
    ensures CalculateDistance(m, DirectionalOffset(m, s, dir), d) == CalculateDistance(m, s, d) - 1
  {
    var n := m.width;
    assert DirectionalOffset(m, s, dir) == Position(s.x, Wrap(n, s.y + AxisStep(n, s.y, d.y)));
    AxisStepApproaches(n, s.y, d.y);
  }

  lemma HorizontalStep(m: GameMap, s: Position, d: Position, dir: Direction)
    requires s != d && dir in GetUnsafeMoves(m, s, d) && (dir == East || dir == West)
    ensures s.x != d.x && AxisStep(m.width, s.x, d.x) == Vector(dir).0
  {
  }

  lemma VerticalStep(m: GameMap, s: Position, d: Position, dir: Direction)
    requires Square(m) && s != d && dir in GetUnsafeMoves(m, s, d) && (dir == North || dir == South)
    ensures s.y != d.y && AxisStep(m.width, s.y, d.y) == Vector(dir).1
  {
  }

  /** A unit step in a cardinal direction lands at distance one on a square
      map with at least two columns. */
  lemma OffsetDistanceOne(m: GameMap, p: Position, d: Direction)
    requires Square(m) && m.width >= 2 && OnMap(m, p) && d != Still
    ensures CalculateDistance(m, p, DirectionalOffset(m, p, d)) == 1
  {
    OffsetCoordinates(m, p, d);
  }

  // ---------------------------------------------------------------------
  // The grid of cells

  /** Every cell of the map. */
  function Grid(m: GameMap): set<Position>
  {
    set x: int, y: int | 0 <= x < m.height && 0 <= y < m.width :: Position(x, y)
  }

  lemma InGrid(m: GameMap, p: Position)
    requires OnMap(m, p)
    ensures p in Grid(m)
  {
    assert p == Position(p.x, p.y);
  }

  /** The grid holds exactly the cells on the map. */
  lemma GridIsOnMap(m: GameMap)
    ensures forall c :: c in Grid(m) <==> OnMap(m, c)
  {
    forall c | OnMap(m, c)
      ensures c in Grid(m)
    {
      InGrid(m, c);
    }
  }

  lemma FoundInGrid(m: GameMap, found: set<Position>)
    requires forall c :: c in found ==> OnMap(m, c)
    ensures found <= Grid(m)
  {
    forall c | c in found
      ensures c in Grid(m)
    {
      InGrid(m, c);
    }
  }

  /** Cells enter the next layer only when they are first found, so the
      unexplored part of the map shrinks by at least the next layer. */
  lemma Shrinks(m: GameMap, found: set<Position>, found': set<Position>, next: set<Position>)
    requires found <= found' <= Grid(m)
    requires next <= found' - found
    ensures |Grid(m) - found'| + |next| <= |Grid(m) - found|
  {
    assert Grid(m) - found == (Grid(m) - found') + (found' - found);
    assert (Grid(m) - found') * (found' - found) == {};
    assert found' - found == next + ((found' - found) - next);
  }

  /** A set of integers (turns, layer numbers) is empty or has a member. */
  lemma EmptyOrInhabited(s: set<int>)
    ensures s == {} || exists t :: t in s
  {
    if forall t :: t !in s {
      assert s == {};
    }
  }
}
