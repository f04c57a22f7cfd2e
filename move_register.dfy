/** The per-turn command ledger (bots/current_bot/utils/MoveRegister.java):
    it collects one command per ship, tracks the cells already claimed,
    forces ships off our dropoffs when their last exit is about to close, and
    repairs accidental self-collisions before the commands are sent. */
module MoveRegistry {
  import opened Wrappers
  import opened Geometry
  import opened World
  import opened ShipCommands
  import opened CommonFunctions
  import opened Tiebreakers
  import opened Navigation

  // ---------------------------------------------------------------------
  // Command lists

  function ShipsOf(cs: seq<ShipCommand>): (r: seq<Ship>)
    ensures |r| == |cs|
  {
    seq(|cs|, i requires 0 <= i < |cs| => cs[i].ship)
  }

  predicate DistinctShips(ss: seq<Ship>)
  {
    forall i, j :: 0 <= i < j < |ss| ==> ss[i] != ss[j]
  }

  lemma ShipsOfSnoc(cs: seq<ShipCommand>, c: ShipCommand)
    ensures ShipsOf(cs + [c]) == ShipsOf(cs) + [c.ship]
  {
  }

  lemma ShipsOfMember(cs: seq<ShipCommand>, c: ShipCommand)
    requires c in cs
    ensures c.ship in ShipsOf(cs)
  {
    var i :| 0 <= i < |cs| && cs[i] == c;
    assert ShipsOf(cs)[i] == c.ship;
  }

  /** No ship appears twice, stated as the ledger builds its list: each
      entry is new to the entries before it. */
  predicate UniqueShips(ss: seq<Ship>)
  {
    ss == [] || (UniqueShips(ss[..|ss| - 1]) && ss[|ss| - 1] !in ss[..|ss| - 1])
  }

  lemma UniqueSnoc(ss: seq<Ship>, s: Ship)
    requires UniqueShips(ss) && s !in ss
    ensures UniqueShips(ss + [s])
  {
    assert (ss + [s])[..|ss|] == ss;
  }

  /** The incremental form of uniqueness is the pairwise one. */
  lemma {:induction false} UniqueMeansDistinct(ss: seq<Ship>)
    ensures UniqueShips(ss) <==> DistinctShips(ss)
  {
    if ss != [] {
      var init := ss[..|ss| - 1];
      UniqueMeansDistinct(init);
      if DistinctShips(ss) {
        assert DistinctShips(init) by {
          forall i, j | 0 <= i < j < |init| ensures init[i] != init[j] {
            assert init[i] == ss[i] && init[j] == ss[j];
          }
        }
      }
      if UniqueShips(ss) {
        forall i, j | 0 <= i < j < |ss| ensures ss[i] != ss[j] {
          assert ss[i] == init[i];
          if j < |init| {
            assert ss[j] == init[j];
          }
        }
      }
    }
  }

  /** A ship that no command names is not among the commands' ships. */
  lemma NotCommanded(cs: seq<ShipCommand>, s: Ship)
    requires forall c :: c in cs ==> c.ship != s
    ensures s !in ShipsOf(cs)
  {
  }

  /** The STILL commands fixCommands appends: one for each ship of `ss`
      outside `skip`, in order. */
  function Stills(m: GameMap, ss: seq<Ship>, skip: set<Ship>): seq<ShipCommand>
    requires ValidMap(m)
  {
    if ss == [] then []
    else
      var last := ss[|ss| - 1];
      Stills(m, ss[..|ss| - 1], skip) + (if last in skip then [] else [Move(m, last, Still)])
  }

  /** Each appended command is a STILL for a ship of `ss` outside `skip`,
      and each such ship gets one. */
  lemma {:induction false} StillsMembers(m: GameMap, ss: seq<Ship>, skip: set<Ship>)
    requires ValidMap(m)
    ensures forall c :: c in Stills(m, ss, skip) ==> c.ship in ss && c.ship !in skip && c == Move(m, c.ship, Still)
    ensures forall s :: s in ss && s !in skip ==> Move(m, s, Still) in Stills(m, ss, skip)
  {
    if ss != [] {
      var init := ss[..|ss| - 1];
      StillsMembers(m, init, skip);
      assert ss == init + [ss[|ss| - 1]];
    }
  }

  /** A ship outside `ships` and `ss` has no command yet. */
  lemma StillsFresh(m: GameMap, cs: seq<ShipCommand>, ss: seq<Ship>, ships: set<Ship>, s: Ship)
    requires ValidMap(m) && s !in ships && s !in ss
    requires forall c :: c in cs ==> c.ship in ships
    ensures s !in ShipsOf(cs + Stills(m, ss, ships))
  {
    StillsMembers(m, ss, ships);
    NotCommanded(cs + Stills(m, ss, ships), s);
  }

  /** The loop of fixCommands that appends a STILL command for every ship
      of `all` outside `ships`. */
  method AppendStills(m: GameMap, cs: seq<ShipCommand>, all: seq<Ship>, ships: set<Ship>) returns (r: seq<ShipCommand>)
    requires ValidMap(m) && UniqueShips(all) && UniqueShips(ShipsOf(cs))
    requires forall c :: c in cs ==> c.ship in ships
    ensures r == cs + Stills(m, all, ships)
    ensures UniqueShips(ShipsOf(r))
  {
    UniqueMeansDistinct(all);
    r := cs;
    assert all[..0] == [];
    var i := 0;
    while i < |all|
      invariant 0 <= i <= |all|
      invariant r == cs + Stills(m, all[..i], ships)
      invariant UniqueShips(ShipsOf(r))
    {
      var s := all[i];
      assert all[..i + 1][..i] == all[..i];
      if s !in ships {
        StillsFresh(m, cs, all[..i], ships, s);
        var still := Move(m, s, Still);
        ShipsOfSnoc(r, still);
        UniqueSnoc(ShipsOf(r), s);
        r := r + [still];
      }
      i := i + 1;
    }
    assert all[..|all|] == all;
  }

  /** The commands of `cs` that `keep` accepts, in order: the stream filters
      of the cascade's cancellation and of the out-of-time signal. */
  function KeepCommands(cs: seq<ShipCommand>, keep: ShipCommand -> bool): (r: seq<ShipCommand>)
    ensures |r| <= |cs|
    ensures forall c :: c in r <==> c in cs && keep(c)
  {
    if cs == [] then []
    else
      var last := cs[|cs| - 1];
      var rest := KeepCommands(cs[..|cs| - 1], keep);
      if keep(last) then rest + [last] else rest
  }

  /** Filtering never puts two commands for one ship in the list. */
  lemma {:induction false} KeepPreservesUnique(cs: seq<ShipCommand>, keep: ShipCommand -> bool)
    requires UniqueShips(ShipsOf(cs))
    ensures UniqueShips(ShipsOf(KeepCommands(cs, keep)))
  {
    if cs != [] {
      var init, last := cs[..|cs| - 1], cs[|cs| - 1];
      assert cs == init + [last];
      ShipsOfSnoc(init, last);
      assert ShipsOf(cs)[..|cs| - 1] == ShipsOf(init);
      KeepPreservesUnique(init, keep);
      var rest := KeepCommands(init, keep);
      if keep(last) {
        if last.ship in ShipsOf(rest) {
          var k :| 0 <= k < |rest| && ShipsOf(rest)[k] == last.ship;
          ShipsOfMember(init, rest[k]);
          assert false;
        }
        ShipsOfSnoc(rest, last);
        UniqueSnoc(ShipsOf(rest), last.ship);
      }
    }
  }

  // ---------------------------------------------------------------------
  // Collision test of fixCommands

  /** A command that takes part in the collision test: not collision
      tolerant and not aimed at a cell where collisions are allowed. */
  predicate Counts(c: ShipCommand, allowed: set<Position>)
  {
    !c.canCollide && c.destination !in allowed
  }

  /** The destinations claimed by the counted commands. */
  function Claimed(cs: seq<ShipCommand>, allowed: set<Position>): set<Position>
  {
    if cs == [] then {}
    else
      var last := cs[|cs| - 1];
      Claimed(cs[..|cs| - 1], allowed) + (if Counts(last, allowed) then {last.destination} else {})
  }

  /** The destinations claimed twice: fixCommands' badPositions. */
  function Clashes(cs: seq<ShipCommand>, allowed: set<Position>): set<Position>
  {
    if cs == [] then {}
    else
      var init, last := cs[..|cs| - 1], cs[|cs| - 1];
      Clashes(init, allowed) + (if Counts(last, allowed) && last.destination in Claimed(init, allowed) then {last.destination} else {})
  }

  /** No two counted commands share a destination. */
  predicate NoIllegalSharing(cs: seq<ShipCommand>, allowed: set<Position>)
  {
    forall i, j :: 0 <= i < j < |cs| && Counts(cs[i], allowed) && Counts(cs[j], allowed) ==> cs[i].destination != cs[j].destination
  }

  lemma {:induction false} ClaimedExact(cs: seq<ShipCommand>, allowed: set<Position>, p: Position)
    ensures p in Claimed(cs, allowed) <==> exists i :: 0 <= i < |cs| && Counts(cs[i], allowed) && cs[i].destination == p
  {
    if cs != [] {
      var init := cs[..|cs| - 1];
      ClaimedExact(init, allowed, p);
      if p in Claimed(init, allowed) {
        var i :| 0 <= i < |init| && Counts(init[i], allowed) && init[i].destination == p;
        assert cs[i] == init[i];
      }
      if exists i :: 0 <= i < |cs| && Counts(cs[i], allowed) && cs[i].destination == p {
        var i :| 0 <= i < |cs| && Counts(cs[i], allowed) && cs[i].destination == p;
        if i < |init| {
          assert init[i] == cs[i];
        }
      }
    }
  }

  /** The collision test finds no clash exactly when no two counted
      commands share a destination. */
  lemma {:induction false} NoClashesMeansNoSharing(cs: seq<ShipCommand>, allowed: set<Position>)
    ensures Clashes(cs, allowed) == {} <==> NoIllegalSharing(cs, allowed)
  {
    if cs != [] {
      var init, last := cs[..|cs| - 1], cs[|cs| - 1];
      NoClashesMeansNoSharing(init, allowed);
      ClaimedExact(init, allowed, last.destination);
      if NoIllegalSharing(cs, allowed) {
        assert NoIllegalSharing(init, allowed) by {
          forall i, j | 0 <= i < j < |init| && Counts(init[i], allowed) && Counts(init[j], allowed)
            ensures init[i].destination != init[j].destination
          {
            assert init[i] == cs[i] && init[j] == cs[j];
          }
        }
        if Counts(last, allowed) && last.destination in Claimed(init, allowed) {
          assert false;
        }
      }
      if Clashes(cs, allowed) == {} {
        assert Clashes(init, allowed) == {};
        forall i, j | 0 <= i < j < |cs| && Counts(cs[i], allowed) && Counts(cs[j], allowed)
          ensures cs[i].destination != cs[j].destination
        {
          if j < |init| {
            assert init[i] == cs[i] && init[j] == cs[j];
          } else {
            assert init[i] == cs[i];
          }
        }
      }
    }
  }

  /** Removing commands cannot create a clash. */
  lemma NoSharingKept(cs: seq<ShipCommand>, allowed: set<Position>, keep: ShipCommand -> bool)
    requires NoIllegalSharing(cs, allowed)
    ensures NoIllegalSharing(KeepCommands(cs, keep), allowed)
  {
    var r := KeepCommands(cs, keep);
    SubsequenceIndices(cs, keep);
    forall i, j | 0 <= i < j < |r| && Counts(r[i], allowed) && Counts(r[j], allowed)
      ensures r[i].destination != r[j].destination
    {
      var f := KeepIndex(cs, keep);
      assert r[i] == cs[f[i]] && r[j] == cs[f[j]];
    }
  }

  /** Where each kept command sits in the original list. */
  function KeepIndex(cs: seq<ShipCommand>, keep: ShipCommand -> bool): (f: seq<int>)
    ensures |f| == |KeepCommands(cs, keep)|
  {
    if cs == [] then []
    else
      var rest := KeepIndex(cs[..|cs| - 1], keep);
      if keep(cs[|cs| - 1]) then rest + [|cs| - 1] else rest
  }

  lemma {:induction false} SubsequenceIndices(cs: seq<ShipCommand>, keep: ShipCommand -> bool)
    ensures forall k :: 0 <= k < |KeepIndex(cs, keep)| ==>
      0 <= KeepIndex(cs, keep)[k] < |cs| && KeepCommands(cs, keep)[k] == cs[KeepIndex(cs, keep)[k]]
    ensures forall k, l :: 0 <= k < l < |KeepIndex(cs, keep)| ==> KeepIndex(cs, keep)[k] < KeepIndex(cs, keep)[l]
  {
    if cs != [] {
      var init := cs[..|cs| - 1];
      SubsequenceIndices(init, keep);
    }
  }

  lemma SubsetSmaller(a: set<Ship>, b: set<Ship>, x: Ship)
    requires a <= b && x in b && x !in a
    ensures |a| < |b|
  {
    assert a <= b - {x};
    var c := b - {x};
    assert a + (c - a) == c;
    assert |c| == |a| + |c - a|;
  }

  /** The must-move table the constructor builds: a ship of ours on a
      listed cell must leave it, by any cardinal. */
  function DropoffMustMoves(g: Game, ps: seq<Position>): map<Position, seq<Direction>>
  {
    if ps == [] then map[]
    else
      var last := ps[|ps| - 1];
      var m := DropoffMustMoves(g, ps[..|ps| - 1]);
      if HasFriendlyShip(g, last) then m[last := AllCardinals] else m
  }

  /** The constructor's table holds exactly the listed cells with a ship of
      ours, each with all four cardinals. */
  lemma {:induction false} DropoffMustMovesExact(g: Game, ps: seq<Position>, p: Position)
    ensures p in DropoffMustMoves(g, ps) <==> p in ps && HasFriendlyShip(g, p)
    ensures p in DropoffMustMoves(g, ps) ==> DropoffMustMoves(g, ps)[p] == AllCardinals
  {
    if ps != [] {
      DropoffMustMovesExact(g, ps[..|ps| - 1], p);
      assert ps == ps[..|ps| - 1] + [ps[|ps| - 1]];
    }
  }

  /** The options left to a ship at `origin` once `dest` is taken: its
      options whose target is not `dest`. */
  lemma PrunedOptions(g: Game, origin: Position, options: seq<Direction>, dest: Position, d: Direction)
    requires ValidMap(g.board)
    ensures d in Filtered(g, origin, {dest}, Unoccupied, options) <==> d in options && DirectionalOffset(g.board, origin, d) != dest
  {
    FilteredMember(g, origin, {dest}, Unoccupied, options, d);
  }

  lemma SubsetNoLarger(a: set<Ship>, b: set<Ship>)
    requires a <= b
    ensures |a| <= |b|
  {
    assert b == a + (b - a);
  }

  // ---------------------------------------------------------------------
  // The repair rule of fixCommands

  /** A command the repair pass never touches: collision tolerant, or
      staying on its ship's own cell. */
  predicate Exempt(c: ShipCommand)
  {
    c.canCollide || c.ship.position == c.destination
  }

  /** The destinations of the commands of `cs` that are not exempt. */
  function NonExemptDests(cs: seq<ShipCommand>): set<Position>
  {
    if cs == [] then {}
    else
      var last := cs[|cs| - 1];
      NonExemptDests(cs[..|cs| - 1]) + (if Exempt(last) then {} else {last.destination})
  }

  /** The command at index i is the one a repair pass over `cs` with the
      bad cells `bad` replaces: the first command that is not exempt
      among those aimed at a bad cell. */
  predicate Replaced(cs: seq<ShipCommand>, bad: set<Position>, i: int)
    requires 0 <= i < |cs|
  {
    !Exempt(cs[i]) && cs[i].destination in bad && cs[i].destination !in NonExemptDests(cs[..i])
  }

  /** What a replaced command c becomes: a move of the same ship whose
      target is claimed, which is STILL unless the ship's own cell was
      claimed (then moveAnywhere chose it, and a move it chose leads to a
      cell outside `claimed`, the cells claimed before). */
  ghost predicate Replacement(m: GameMap, claimed: set<Position>, occupied: set<Position>, c: ShipCommand, n: ShipCommand)
    requires ValidMap(m)
  {
    && n.ship == c.ship && n.destination in occupied
    && (n == Move(m, c.ship, Still) || c.ship.position in occupied)
    && (n != Move(m, c.ship, Still) ==> n.destination !in claimed)
    && exists d :: n == Move(m, c.ship, d)
  }

  lemma ReplacementGrows(m: GameMap, claimed: set<Position>, occupied: set<Position>, more: set<Position>, c: ShipCommand, n: ShipCommand)
    requires ValidMap(m) && Replacement(m, claimed, occupied, c, n) && occupied <= more
    ensures Replacement(m, claimed, more, c, n)
  {
  }

  lemma ReplacementsGrow(m: GameMap, claimed: set<Position>, occupied: set<Position>, more: set<Position>,
                         cs: seq<ShipCommand>, ns: seq<ShipCommand>, bad: set<Position>, i: int)
    requires ValidMap(m) && occupied <= more && 0 <= i <= |cs| && i <= |ns|
    requires forall k :: 0 <= k < i && Replaced(cs, bad, k) ==> Replacement(m, claimed, occupied, cs[k], ns[k])
    ensures forall k :: 0 <= k < i && Replaced(cs, bad, k) ==> Replacement(m, claimed, more, cs[k], ns[k])
  {
    forall k | 0 <= k < i && Replaced(cs, bad, k)
      ensures Replacement(m, claimed, more, cs[k], ns[k])
    {
      ReplacementGrows(m, claimed, occupied, more, cs[k], ns[k]);
    }
  }

  /** The outOfTime filter: a command that leaves its ship's cell. */
  predicate Leaves(c: ShipCommand)
  {
    c.destination != c.ship.position
  }

  /** Every ship standing on a cell is at that cell. */
  ghost predicate ShipsPlaced(g: Game)
  {
    forall p :: g.cells(p).ship.Some? ==> g.cells(p).ship.value.position == p
  }

  // ---------------------------------------------------------------------
  // The register's state as a value

  /** Everything a move register changes during a turn. */
  datatype Ledger = Ledger(
    occupied: set<Position>,
    remaining: set<Ship>,
    commands: seq<ShipCommand>,
    collisionsAllowed: set<Position>,
    mustMoveShips: map<Position, seq<Direction>>,
    mustMoveDests: set<Position>,
    shouldMoveShips: map<Ship, seq<Direction>>,
    attention: map<Position, seq<Ship>>,
    forced: set<Ship>,
    spawn: bool,
    outOfTime: bool)

  /** What registering moves may do to the register: ships only leave
      the remaining set, and every ship that leaves (other than those in
      `exempt`) was forced; claimed cells, forced ships, must-move keys,
      must-move destinations and collision-tolerant cells only grow;
      should-move options only shrink; new commands belong to ships that
      left the remaining set. */
  ghost predicate Evolved(a: Ledger, b: Ledger, exempt: set<Ship>)
  {
    && b.remaining <= a.remaining
    && (forall s :: s in a.remaining && s !in b.remaining && s !in exempt ==> s in b.forced)
    && a.forced <= b.forced
    && a.occupied <= b.occupied
    && a.mustMoveShips.Keys <= b.mustMoveShips.Keys
    && a.mustMoveDests <= b.mustMoveDests
    && a.collisionsAllowed <= b.collisionsAllowed
    && b.shouldMoveShips.Keys == a.shouldMoveShips.Keys
    && (forall s, d :: s in b.shouldMoveShips && d in b.shouldMoveShips[s] ==> d in a.shouldMoveShips[s])
    && b.attention == a.attention
    && b.spawn == a.spawn && b.outOfTime == a.outOfTime
    && (forall c :: c in b.commands ==> c in a.commands || (c.ship in a.remaining && c.ship !in b.remaining))
  }

  lemma EvolvedRefl(a: Ledger)
    ensures Evolved(a, a, {})
  {
  }

  /** Two evolutions in a row are one. */
  lemma EvolvedTrans(a: Ledger, b: Ledger, c: Ledger, exempt: set<Ship>)
    requires Evolved(a, b, exempt) && Evolved(b, c, exempt)
    ensures Evolved(a, c, exempt)
  {
  }

  /** Exempting more ships weakens the claim. */
  lemma EvolvedWiden(a: Ledger, b: Ledger, exempt: set<Ship>, wider: set<Ship>)
    requires Evolved(a, b, exempt) && exempt <= wider
    ensures Evolved(a, b, wider)
  {
  }

  /** A ship that was already forced needs no exemption. */
  lemma EvolvedAbsorb(a: Ledger, b: Ledger, exempt: set<Ship>, wider: set<Ship>)
    requires Evolved(a, b, exempt) && exempt <= a.forced + wider
    ensures Evolved(a, b, wider)
  {
  }

  /** Commands only leave the list through the cascade's cancellation,
      whose cell is then a must-move destination. */
  ghost predicate Kept(a: Ledger, b: Ledger)
  {
    forall c :: c in a.commands ==> c in b.commands || c.destination in b.mustMoveDests
  }

  lemma KeptTrans(a: Ledger, b: Ledger, c: Ledger)
    requires Kept(a, b) && Kept(b, c) && b.mustMoveDests <= c.mustMoveDests
    ensures Kept(a, c)
  {
  }

  lemma KeptRefl(a: Ledger)
    ensures Kept(a, a)
  {
  }

  /** A ship startTrackingLegalMoves has dealt with: committed, on a
      must-move cell, given should-move options, or left with no legal
      move. */
  ghost predicate TrackedIn(g: Game, l: Ledger, t: Ship)
    requires ValidMap(g.board)
  {
    t !in l.remaining || t.position in l.mustMoveShips || t in l.shouldMoveShips
    || Filtered(g, t.position, l.occupied, VisitableBy(t), AllCardinals) == []
  }

  lemma TrackedGrows(g: Game, a: Ledger, b: Ledger, t: Ship)
    requires ValidMap(g.board) && TrackedIn(g, a, t)
    requires b.remaining <= a.remaining && a.mustMoveShips.Keys <= b.mustMoveShips.Keys
    requires a.shouldMoveShips.Keys <= b.shouldMoveShips.Keys && a.occupied <= b.occupied
    ensures TrackedIn(g, b, t)
  {
    if Filtered(g, t.position, a.occupied, VisitableBy(t), AllCardinals) == [] {
      FilteredEmptyGrows(g, t.position, a.occupied, b.occupied, VisitableBy(t), AllCardinals);
    }
  }

  class MoveRegister {
    var outOfTime: bool
    const game: Game
    var occupiedPositions: set<Position>
    const allShips: seq<Ship>
    var remainingShips: set<Ship>
    var commandRegister: seq<ShipCommand>
    var collisionsAllowed: set<Position>
    var mustMoveShips: map<Position, seq<Direction>>
    var mustMoveDests: set<Position>
    var shouldMoveShips: map<Ship, seq<Direction>>
    var shouldMoveShipAttentionMaps: map<Position, seq<Ship>>
    var forcedMoves: set<Ship>
    var spawn: bool

    function State(): Ledger
      reads this
    {
      Ledger(occupiedPositions, remainingShips, commandRegister, collisionsAllowed, mustMoveShips,
             mustMoveDests, shouldMoveShips, shouldMoveShipAttentionMaps, forcedMoves, spawn, outOfTime)
    }

    /** The register's invariant: remaining ships are ours; every command
        is for a distinct, committed ship; every ship in an attention list
        has should-move options, and those options are visitable. */
    ghost predicate Valid()
      reads this
    {
      && ValidGame(game) && ShipsPlaced(game)
      && UniqueShips(allShips)
      && (forall s :: s in allShips ==> OnMap(game.board, s.position))
      && (forall s :: s in remainingShips ==> s in allShips)
      && (forall c :: c in commandRegister ==> c.ship !in remainingShips)
      && UniqueShips(ShipsOf(commandRegister))
      && (forall p, s :: p in shouldMoveShipAttentionMaps && s in shouldMoveShipAttentionMaps[p] ==> s in shouldMoveShips)
      && (forall s, d :: s in shouldMoveShips && d in shouldMoveShips[s] ==> CanVisit(game, DirectionalOffset(game.board, s.position, d), s))
    }

    /** MoveRegister(ships, game, rushOn): every ship remains; unless rushing,
        each of our shipyard and dropoff cells holding a ship of ours becomes
        a must-move entry with all four cardinals. */
    constructor(ships: seq<Ship>, game: Game, rushOn: bool)
      requires ValidGame(game) && ShipsPlaced(game) && DistinctShips(ships)
      requires forall s :: s in ships ==> OnMap(game.board, s.position)
      ensures Valid()
      ensures this.game == game && allShips == ships && remainingShips == set s | s in ships
      ensures occupiedPositions == {} && commandRegister == [] && collisionsAllowed == {}
      ensures mustMoveDests == {} && shouldMoveShips == map[] && shouldMoveShipAttentionMaps == map[]
      ensures forcedMoves == {} && !spawn && !outOfTime
      ensures mustMoveShips == if rushOn then map[] else DropoffMustMoves(game, GetDropoffPositions(game.me, None))
    {
      var table: map<Position, seq<Direction>> := map[];
      if !rushOn {
        var ps := GetDropoffPositions(game.me, None);
        var i := 0;
        while i < |ps|
          invariant 0 <= i <= |ps|
          invariant table == DropoffMustMoves(game, ps[..i])
        {
          var p := ps[i];
          assert ps[..i + 1][..i] == ps[..i];
          if HasFriendlyShip(game, p) {
            var legalMoves: seq<Direction> := [];
            var k := 0;
            while k < |AllCardinals|
              invariant 0 <= k <= |AllCardinals|
              invariant legalMoves == AllCardinals[..k]
            {
              legalMoves := legalMoves + [AllCardinals[k]];
              k := k + 1;
            }
            assert legalMoves == AllCardinals;
            table := table[p := legalMoves];
          }
          i := i + 1;
        }
        assert ps[..|ps|] == ps;
      }
      UniqueMeansDistinct(ships);
      this.game := game;
      allShips := ships;
      remainingShips := set s | s in ships;
      occupiedPositions := {};
      commandRegister := [];
      collisionsAllowed := {};
      mustMoveShips := table;
      mustMoveDests := {};
      shouldMoveShips := map[];
      shouldMoveShipAttentionMaps := map[];
      forcedMoves := {};
      spawn := false;
      outOfTime := false;
    }

    /** mustMove(ship): the ship stands on a must-move cell and has no
        command yet. */
    predicate MustMove(ship: Ship)
      reads this
    {
      ship.position in mustMoveShips && ship in remainingShips
    }

    /** A ship that already has a command need not move again, even on a
        must-move cell (the comment at line 288); a remaining ship off the
        must-move cells need not move either. */
    lemma MovedNeedNotMove(ship: Ship)
      requires Valid()
      ensures (exists c :: c in commandRegister && c.ship == ship) ==> !MustMove(ship)
      ensures ship.position !in mustMoveShips ==> !MustMove(ship)
    {
    }

    /** registerMove(ship, direction). A ship without a command gets the move:
        its target is claimed, it leaves the remaining set and its command is
        appended; then the must-move and should-move entries watching the
        target are pruned, which may force further moves. A ship that already
        has a command is ignored if it was forced, and otherwise is an error
        (ok false), leaving everything unchanged. */
    method RegisterMove(ship: Ship, direction: Direction) returns (ok: bool)
      requires Valid()
      modifies this
      decreases |remainingShips|, 0
      ensures Valid() && Evolved(old(State()), State(), {ship})
      ensures ok <==> ship in old(remainingShips) || ship in old(forcedMoves)
      ensures ship !in old(remainingShips) ==> State() == old(State())
      ensures ship in old(remainingShips) ==>
        ship !in remainingShips && Move(game.board, ship, direction).destination in occupiedPositions
      ensures Kept(old(State()), State())
      ensures ship in old(remainingShips) ==>
        Move(game.board, ship, direction) in commandRegister || Move(game.board, ship, direction).destination in mustMoveDests
    {
      if ship !in remainingShips {
        ok := ship in forcedMoves;
        return;
      }
      ok := true;
      var command := Move(game.board, ship, direction);
      ShipsOfSnoc(commandRegister, command);
      NotCommanded(commandRegister, ship);
      UniqueSnoc(ShipsOf(commandRegister), ship);
      occupiedPositions := occupiedPositions + {command.destination};
      remainingShips := remainingShips - {ship};
      commandRegister := commandRegister + [command];
      SubsetSmaller(remainingShips, old(remainingShips), ship);
      ghost var committed := State();
      assert Evolved(old(State()), committed, {ship});
      assert Kept(old(State()), committed);

      PruneMustMoves(command.destination);
      ghost var pruned := State();
      EvolvedAbsorb(committed, pruned, {}, {ship});
      EvolvedTrans(old(State()), committed, pruned, {ship});
      KeptTrans(old(State()), committed, pruned);
      SubsetNoLarger(remainingShips, committed.remaining);

      PruneShouldMoves(command.destination);
      EvolvedAbsorb(pruned, State(), {}, {ship});
      EvolvedTrans(old(State()), pruned, State(), {ship});
      KeptTrans(old(State()), pruned, State());
      KeptTrans(committed, pruned, State());
    }

    /** The checkPos loop of registerMove: every must-move cell at distance
        one from the claimed cell `dest` loses its option into `dest` and is
        checked for a forced move. */
    method PruneMustMoves(dest: Position)
      requires Valid()
      modifies this
      decreases |remainingShips|, 6
      ensures Valid() && Evolved(old(State()), State(), {}) && Kept(old(State()), State())
    {
      var checkPos := mustMoveShips.Keys;
      EvolvedRefl(State());
      KeptRefl(State());
      while checkPos != {}
        invariant Valid() && Evolved(old(State()), State(), {}) && Kept(old(State()), State())
        invariant |remainingShips| <= |old(remainingShips)|
        invariant checkPos <= old(mustMoveShips).Keys
        decreases |checkPos|
      {
        var p :| p in checkPos;
        checkPos := checkPos - {p};
        if CalculateDistance(game.board, p, dest) == 1 {
          ghost var before := State();
          PruneMustMove(p, dest);
          EvolvedTrans(old(State()), before, State(), {});
          KeptTrans(old(State()), before, State());
          SubsetNoLarger(remainingShips, before.remaining);
        }
      }
    }

    /** One must-move cell next to the claimed cell `dest`: its option into
        `dest` is dropped and the cell is checked for a forced move. */
    method PruneMustMove(p: Position, dest: Position)
      requires Valid() && p in mustMoveShips
      modifies this
      decreases |remainingShips|, 4
      ensures Valid() && Evolved(old(State()), State(), {}) && Kept(old(State()), State())
    {
      ghost var before := State();
      mustMoveShips := mustMoveShips[p := Filtered(game, p, {dest}, Unoccupied, mustMoveShips[p])];
      ghost var mid := State();
      assert Evolved(before, mid, {}) && Kept(before, mid);
      CheckMustMovePosition(p);
      EvolvedTrans(before, mid, State(), {});
      KeptTrans(before, mid, State());
    }

    /** checkMustMovePosition(p). When the must-move cell p has exactly one
        option left and its ship has no command, the ship is forced there
        and the target becomes a must-move destination; a ship of ours on
        the target is then redirected. */
    method CheckMustMovePosition(p: Position)
      requires Valid() && p in mustMoveShips
      modifies this
      decreases |remainingShips|, 2
      ensures Valid() && Evolved(old(State()), State(), {}) && Kept(old(State()), State())
      ensures (|old(mustMoveShips[p])| != 1 || game.cells(p).ship.None? || game.cells(p).ship.value !in old(remainingShips)) ==> State() == old(State())
      ensures |old(mustMoveShips[p])| == 1 && game.cells(p).ship.Some? && game.cells(p).ship.value in old(remainingShips) ==>
        var s := game.cells(p).ship.value;
        s !in remainingShips && s in forcedMoves && Move(game.board, s, old(mustMoveShips[p])[0]).destination in occupiedPositions
        && DirectionalOffset(game.board, p, old(mustMoveShips[p])[0]) in mustMoveDests
    {
      var remainingMoves := mustMoveShips[p];
      if |remainingMoves| != 1 {
        return;
      }
      var dropoffShip := game.cells(p).ship;
      if dropoffShip.None? || dropoffShip.value !in remainingShips {
        return;
      }
      var forcedDir := remainingMoves[0];
      var dest := DirectionalOffset(game.board, p, forcedDir);
      ForceMove(dropoffShip.value, forcedDir);
      ghost var moved := State();
      AddMustMoveDest(dest);
      EvolvedTrans(old(State()), moved, State(), {});
      KeptTrans(old(State()), moved, State());

      if HasFriendlyShip(game, dest) {
        var s := game.cells(dest).ship.value;
        if s !in remainingShips {
          return;
        }
        ghost var before := State();
        RedirectTargetShip(s, dest);
        EvolvedTrans(old(State()), before, State(), {});
        KeptTrans(old(State()), before, State());
      }
    }

    /** A ship is marked forced and its move registered (the shared step
        of checkMustMovePosition and the watcher pruning). */
    method ForceMove(ship: Ship, forcedDir: Direction)
      requires Valid() && ship in remainingShips
      modifies this
      decreases |remainingShips|, 1
      ensures Valid() && Evolved(old(State()), State(), {}) && Kept(old(State()), State())
      ensures |remainingShips| < |old(remainingShips)|
      ensures ship !in remainingShips && ship in forcedMoves
      ensures Move(game.board, ship, forcedDir).destination in occupiedPositions
    {
      forcedMoves := forcedMoves + {ship};
      ghost var marked := State();
      var _ := RegisterMove(ship, forcedDir);
      EvolvedAbsorb(marked, State(), {ship}, {});
      EvolvedTrans(old(State()), marked, State(), {});
      SubsetSmaller(remainingShips, old(remainingShips), ship);
    }

    /** `dest` becomes a must-move destination. */
    method AddMustMoveDest(dest: Position)
      requires Valid()
      modifies this`mustMoveDests
      ensures Valid() && Evolved(old(State()), State(), {}) && Kept(old(State()), State())
      ensures mustMoveDests == old(mustMoveDests) + {dest}
    {
      mustMoveDests := mustMoveDests + {dest};
    }

    /** A ship's should-move options are narrowed to `pruned`. */
    method SetOptions(s: Ship, pruned: seq<Direction>)
      requires Valid() && s in shouldMoveShips
      requires forall d :: d in pruned ==> d in shouldMoveShips[s]
      modifies this`shouldMoveShips
      ensures Valid() && Evolved(old(State()), State(), {})
      ensures shouldMoveShips == old(shouldMoveShips)[s := pruned]
    {
      shouldMoveShips := shouldMoveShips[s := pruned];
    }

    /** The cardinals out of `from` whose targets lie outside `blocked`
        (the first cardinal loop of checkMustMovePosition, and with the
        claimed cells left out of `blocked`, its second). */
    method ExitsAvoiding(from: Position, blocked: set<Position>) returns (r: seq<Direction>)
      requires ValidMap(game.board)
      ensures r == Filtered(game, from, blocked, Unoccupied, AllCardinals)
    {
      r := [];
      var i := 0;
      while i < |AllCardinals|
        invariant 0 <= i <= |AllCardinals|
        invariant r == Filtered(game, from, blocked, Unoccupied, AllCardinals[..i])
      {
        var d := AllCardinals[i];
        FilteredStep(game, from, blocked, Unoccupied, AllCardinals, i);
        if DirectionalOffset(game.board, from, d) !in blocked {
          r := r + [d];
        }
        i := i + 1;
      }
      assert AllCardinals[..|AllCardinals|] == AllCardinals;
    }

    /** The rest of checkMustMovePosition, for our ship s standing on the
        forced target `dest`: the cell gets the options ExitsFor chooses,
        and is then checked the same way. If no cardinal avoids the
        must-move cells and destinations, `dest` becomes collision
        tolerant. */
    method RedirectTargetShip(s: Ship, dest: Position)
      requires Valid() && game.cells(dest).ship == Some(s) && s in remainingShips
      modifies this
      decreases |remainingShips|, 4
      ensures Valid() && Evolved(old(State()), State(), {}) && Kept(old(State()), State())
      ensures s.position in mustMoveShips
      ensures Filtered(game, dest, old(mustMoveDests + mustMoveShips.Keys), Unoccupied, AllCardinals) == [] ==>
        dest in collisionsAllowed
    {
      var validDirections, cancelled := ExitsFor(dest);
      ghost var exits := State();
      SetMustMove(s.position, validDirections);
      ghost var given := State();
      EvolvedTrans(old(State()), exits, given, {});
      CheckMustMovePosition(s.position);
      EvolvedTrans(old(State()), given, State(), {});
      assert cancelled <= mustMoveDests;
      assert Kept(exits, State()) by {
        KeptTrans(exits, given, State());
      }
    }

    /** The must-move cell p gets the options `ds`. */
    method SetMustMove(p: Position, ds: seq<Direction>)
      requires Valid()
      modifies this`mustMoveShips
      ensures Valid() && Evolved(old(State()), State(), {}) && Kept(old(State()), State())
      ensures mustMoveShips == old(mustMoveShips)[p := ds]
    {
      mustMoveShips := mustMoveShips[p := ds];
    }

    /** The options checkMustMovePosition gives the ship on the forced target
        `dest`: the cardinals avoiding must-move cells, must-move
        destinations and claimed cells; if there are none, the last cardinal
        avoiding the must-move cells and destinations, after cancelling every
        command into its target (`cancelled`); if there is not even that,
        none, and `dest` becomes collision tolerant. */
    method ExitsFor(dest: Position) returns (validDirections: seq<Direction>, ghost cancelled: set<Position>)
      requires Valid()
      modifies this`commandRegister, this`collisionsAllowed
      ensures Valid() && Evolved(old(State()), State(), {})
      ensures forall c :: c in old(commandRegister) ==> c in commandRegister || c.destination in cancelled
      ensures var blocked := mustMoveDests + mustMoveShips.Keys;
        var free := Filtered(game, dest, blocked + occupiedPositions, Unoccupied, AllCardinals);
        var fallback := Filtered(game, dest, blocked, Unoccupied, AllCardinals);
        && (free != [] ==> validDirections == free && State() == old(State()) && cancelled == {})
        && (free == [] && fallback != [] ==>
              validDirections == [fallback[|fallback| - 1]]
              && cancelled == {DirectionalOffset(game.board, dest, fallback[|fallback| - 1])}
              && collisionsAllowed == old(collisionsAllowed)
              && forall c :: c in commandRegister <==> c in old(commandRegister) && c.destination !in cancelled)
        && (fallback == [] ==> validDirections == [] && cancelled == {} && dest in collisionsAllowed)
    {
      var blocked := mustMoveDests + mustMoveShips.Keys;
      validDirections := ExitsAvoiding(dest, blocked + occupiedPositions);
      cancelled := {};
      if validDirections == [] {
        validDirections, cancelled := Fallback(dest, blocked);
      } else if Filtered(game, dest, blocked, Unoccupied, AllCardinals) == [] {
        FilteredEmptyGrows(game, dest, blocked, blocked + occupiedPositions, Unoccupied, AllCardinals);
        assert false;
      }
    }

    /** The second cardinal loop of checkMustMovePosition, when every exit
        of `dest` is blocked or claimed: the last cardinal avoiding `blocked`
        is taken after cancelling every command into its target; without
        one, `dest` becomes collision tolerant. */
    method Fallback(dest: Position, blocked: set<Position>) returns (validDirections: seq<Direction>, ghost cancelled: set<Position>)
      requires Valid()
      modifies this`commandRegister, this`collisionsAllowed
      ensures Valid() && Evolved(old(State()), State(), {})
      ensures var fallback := Filtered(game, dest, blocked, Unoccupied, AllCardinals);
        && (fallback != [] ==>
              validDirections == [fallback[|fallback| - 1]]
              && cancelled == {DirectionalOffset(game.board, dest, fallback[|fallback| - 1])}
              && collisionsAllowed == old(collisionsAllowed)
              && forall c :: c in commandRegister <==> c in old(commandRegister) && c.destination !in cancelled)
        && (fallback == [] ==>
              validDirections == [] && cancelled == {} && dest in collisionsAllowed
              && commandRegister == old(commandRegister))
    {
      var fallback := ExitsAvoiding(dest, blocked);
      if fallback == [] {
        RegisterPossibleCollision(dest);
        validDirections, cancelled := [], {};
      } else {
        var bestDir := fallback[|fallback| - 1];
        var newDest := DirectionalOffset(game.board, dest, bestDir);
        CancelInto(newDest);
        validDirections, cancelled := [bestDir], {newDest};
      }
    }

    /** The cancellation of checkMustMovePosition: every command into
        `newDest` is dropped and the others are kept, in order. */
    method CancelInto(newDest: Position)
      requires Valid()
      modifies this`commandRegister
      ensures Valid() && Evolved(old(State()), State(), {})
      ensures forall c :: c in commandRegister <==> c in old(commandRegister) && c.destination != newDest
    {
      KeepPreservesUnique(commandRegister, (c: ShipCommand) => c.destination != newDest);
      commandRegister := KeepCommands(commandRegister, (c: ShipCommand) => c.destination != newDest);
    }

    /** The attention loop of registerMove: each remaining should-move ship
        watching the claimed cell `dest` loses its option into it, and a
        ship left with one option whose target is unclaimed is forced
        there. */
    method PruneShouldMoves(dest: Position)
      requires Valid()
      modifies this
      decreases |remainingShips|, 4
      ensures Valid() && Evolved(old(State()), State(), {}) && Kept(old(State()), State())
    {
      EvolvedRefl(State());
      KeptRefl(State());
      if dest !in shouldMoveShipAttentionMaps {
        return;
      }
      var checkShips := shouldMoveShipAttentionMaps[dest];
      var i := 0;
      while i < |checkShips|
        invariant 0 <= i <= |checkShips|
        invariant Valid() && Evolved(old(State()), State(), {}) && Kept(old(State()), State())
        invariant |remainingShips| <= |old(remainingShips)|
      {
        ghost var before := State();
        PruneWatcher(checkShips[i], dest);
        EvolvedTrans(old(State()), before, State(), {});
        KeptTrans(old(State()), before, State());
        SubsetNoLarger(remainingShips, before.remaining);
        i := i + 1;
      }
    }

    /** One should-move ship watching the claimed cell `dest`: if it has no
        command yet it loses its option into `dest`, and with one option
        left whose target is unclaimed it is forced there. Its options
        afterwards are old options that avoid `dest`. */
    method PruneWatcher(s: Ship, dest: Position)
      requires Valid()
      modifies this
      decreases |remainingShips|, 2
      ensures Valid() && Evolved(old(State()), State(), {}) && Kept(old(State()), State())
      ensures s !in old(remainingShips) ==> State() == old(State())
      ensures s in old(remainingShips) && s in old(shouldMoveShips) ==>
        forall d :: d in shouldMoveShips[s] ==> d in old(shouldMoveShips)[s] && DirectionalOffset(game.board, s.position, d) != dest
    {
      EvolvedRefl(State());
      if s !in remainingShips || s !in shouldMoveShips {
        return;
      }
      var options := shouldMoveShips[s];
      var pruned := Filtered(game, s.position, {dest}, Unoccupied, options);
      forall d | d in pruned ensures d in options && DirectionalOffset(game.board, s.position, d) != dest {
        FilteredMember(game, s.position, {dest}, Unoccupied, options, d);
      }
      SetOptions(s, pruned);
      if |pruned| == 1 {
        var d := pruned[0];
        if DirectionalOffset(game.board, s.position, d) !in occupiedPositions {
          ghost var marked := State();
          ForceMove(s, d);
          EvolvedTrans(old(State()), marked, State(), {});
          KeptTrans(old(State()), marked, State());
        }
      }
    }

    /** registerDropoff(ship): the ship's conversion command is appended and
        it leaves the remaining set. */
    method RegisterDropoff(ship: Ship)
      requires Valid() && ship in remainingShips
      modifies this`remainingShips, this`commandRegister
      ensures Valid()
      ensures remainingShips == old(remainingShips) - {ship}
      ensures commandRegister == old(commandRegister) + [TransformShipIntoDropoffSite(ship)]
    {
      var command := TransformShipIntoDropoffSite(ship);
      ShipsOfSnoc(commandRegister, command);
      NotCommanded(commandRegister, ship);
      UniqueSnoc(ShipsOf(commandRegister), ship);
      remainingShips := remainingShips - {ship};
      commandRegister := commandRegister + [command];
    }

    /** registerPossibleCollision(position). */
    method RegisterPossibleCollision(position: Position)
      modifies this`collisionsAllowed
      ensures collisionsAllowed == old(collisionsAllowed) + {position}
    {
      collisionsAllowed := collisionsAllowed + {position};
    }

    /** registerSpawn(): the first call claims the shipyard; a second is an
        error (ok false) and changes nothing. */
    method RegisterSpawn() returns (ok: bool)
      requires Valid()
      modifies this`spawn, this`occupiedPositions
      ensures Valid()
      ensures ok == !old(spawn)
      ensures ok ==> spawn && occupiedPositions == old(occupiedPositions) + {game.me.shipyard}
      ensures !ok ==> spawn && occupiedPositions == old(occupiedPositions)
    {
      if spawn {
        return false;
      }
      spawn := true;
      occupiedPositions := occupiedPositions + {game.me.shipyard};
      return true;
    }

    /** The cardinals a ship may take when it cannot stay: visitable and
        unclaimed targets. */
    method LegalMoves(s: Ship) returns (r: seq<Direction>)
      requires ValidMap(game.board)
      ensures r == Filtered(game, s.position, occupiedPositions, VisitableBy(s), AllCardinals)
    {
      r := [];
      var i := 0;
      while i < |AllCardinals|
        invariant 0 <= i <= |AllCardinals|
        invariant r == Filtered(game, s.position, occupiedPositions, VisitableBy(s), AllCardinals[..i])
      {
        var d := AllCardinals[i];
        FilteredStep(game, s.position, occupiedPositions, VisitableBy(s), AllCardinals, i);
        var p := DirectionalOffset(game.board, s.position, d);
        if CanVisit(game, p, s) && p !in occupiedPositions {
          r := r + [d];
        }
        i := i + 1;
      }
      assert AllCardinals[..|AllCardinals|] == AllCardinals;
    }

    /** Ship s watches the target of each of its options. */
    method Watch(s: Ship, moves: seq<Direction>)
      requires Valid() && s in shouldMoveShips
      modifies this`shouldMoveShipAttentionMaps
      ensures Valid()
      ensures forall d :: d in moves ==> DirectionalOffset(game.board, s.position, d) in shouldMoveShipAttentionMaps && s in shouldMoveShipAttentionMaps[DirectionalOffset(game.board, s.position, d)]
      ensures forall p, t :: p in old(shouldMoveShipAttentionMaps) && t in old(shouldMoveShipAttentionMaps)[p] ==> p in shouldMoveShipAttentionMaps && t in shouldMoveShipAttentionMaps[p]
    {
      var k := 0;
      while k < |moves|
        invariant 0 <= k <= |moves|
        invariant Valid()
        invariant forall d :: d in moves[..k] ==> DirectionalOffset(game.board, s.position, d) in shouldMoveShipAttentionMaps && s in shouldMoveShipAttentionMaps[DirectionalOffset(game.board, s.position, d)]
        invariant forall p, t :: p in old(shouldMoveShipAttentionMaps) && t in old(shouldMoveShipAttentionMaps)[p] ==> p in shouldMoveShipAttentionMaps && t in shouldMoveShipAttentionMaps[p]
      {
        var p := DirectionalOffset(game.board, s.position, moves[k]);
        assert moves[..k + 1] == moves[..k] + [moves[k]];
        if p !in shouldMoveShipAttentionMaps {
          shouldMoveShipAttentionMaps := shouldMoveShipAttentionMaps[p := []];
        }
        shouldMoveShipAttentionMaps := shouldMoveShipAttentionMaps[p := shouldMoveShipAttentionMaps[p] + [s]];
        k := k + 1;
      }
      assert moves[..|moves|] == moves;
    }

    /** startTrackingLegalMoves(): every remaining ship off a must-move cell
        that may not stay where it is gets its visitable, unclaimed cardinals:
        with one it is moved there, with several they become its should-move
        options and it watches each target (TrackShip states each ship's
        outcome). Afterwards every such ship is committed, on a must-move
        cell, has should-move options, or has no legal move left; only these
        ships gain should-move options. A ship removed meanwhile by a cascade
        was forced, so no call here is a duplicate command. */
    method StartTrackingLegalMoves()
      requires Valid()
      modifies this
      ensures Valid()
      ensures remainingShips <= old(remainingShips)
      ensures old(occupiedPositions) <= occupiedPositions
      ensures old(shouldMoveShips).Keys <= shouldMoveShips.Keys
      ensures forall s :: s in shouldMoveShips && s !in old(shouldMoveShips) ==> s in old(remainingShips) && !CanVisit(game, s.position, s)
      ensures forall s :: s in old(remainingShips) && !CanVisit(game, s.position, s) ==> TrackedIn(game, State(), s)
    {
      var ships := remainingShips;
      while ships != {}
        invariant Valid()
        invariant remainingShips <= old(remainingShips)
        invariant old(occupiedPositions) <= occupiedPositions
        invariant old(shouldMoveShips).Keys <= shouldMoveShips.Keys
        invariant forall s :: s in shouldMoveShips && s !in old(shouldMoveShips) ==> s in old(remainingShips) && !CanVisit(game, s.position, s)
        invariant ships <= old(remainingShips)
        invariant forall s :: s in ships && s !in remainingShips ==> s in forcedMoves
        invariant forall s :: s in old(remainingShips) && s !in ships && !CanVisit(game, s.position, s) ==> TrackedIn(game, State(), s)
        decreases |ships|
      {
        var s :| s in ships;
        ships := ships - {s};
        ghost var before := State();
        TrackShip(s);
        forall t | t in old(remainingShips) && t !in ships && t != s && !CanVisit(game, t.position, t)
          ensures TrackedIn(game, State(), t)
        {
          TrackedGrows(game, before, State(), t);
        }
      }
    }

    /** One ship of startTrackingLegalMoves. A ship on a must-move cell, or
        one that may stay, is left alone, and so is one with no legal move;
        with exactly one legal move it is moved there, and with several they
        become its should-move options, each target watched. */
    method TrackShip(s: Ship)
      requires Valid() && (s in remainingShips || s in forcedMoves)
      modifies this
      ensures Valid()
      ensures remainingShips <= old(remainingShips)
      ensures forall t :: t in old(remainingShips) && t !in remainingShips && t != s ==> t in forcedMoves
      ensures old(forcedMoves) <= forcedMoves
      ensures old(occupiedPositions) <= occupiedPositions
      ensures old(mustMoveShips).Keys <= mustMoveShips.Keys
      ensures old(shouldMoveShips).Keys <= shouldMoveShips.Keys
      ensures forall t :: t in shouldMoveShips && t !in old(shouldMoveShips) ==>
        t == s && !CanVisit(game, s.position, s)
      ensures var legal := Filtered(game, s.position, old(occupiedPositions), VisitableBy(s), AllCardinals);
        && (s.position in old(mustMoveShips) || CanVisit(game, s.position, s) || legal == [] ==> State() == old(State()))
        && (s.position !in old(mustMoveShips) && !CanVisit(game, s.position, s) && |legal| == 1 ==>
              Evolved(old(State()), State(), {s}) && s !in remainingShips
              && (s in old(remainingShips) ==> Move(game.board, s, legal[0]).destination in occupiedPositions))
        && (s.position !in old(mustMoveShips) && !CanVisit(game, s.position, s) && |legal| > 1 ==>
              shouldMoveShips == old(shouldMoveShips)[s := legal]
              && remainingShips == old(remainingShips) && commandRegister == old(commandRegister)
              && occupiedPositions == old(occupiedPositions)
              && forall d :: d in legal ==>
                   (DirectionalOffset(game.board, s.position, d) in shouldMoveShipAttentionMaps
                    && s in shouldMoveShipAttentionMaps[DirectionalOffset(game.board, s.position, d)]))
      ensures TrackedIn(game, State(), s) || CanVisit(game, s.position, s)
    {
      if s.position in mustMoveShips || CanVisit(game, s.position, s) {
        return;
      }
      var legalMoves := LegalMoves(s);
      if |legalMoves| == 1 {
        var ok := RegisterMove(s, legalMoves[0]);
        assert ok;
      } else if |legalMoves| > 1 {
        forall d | d in legalMoves ensures CanVisit(game, DirectionalOffset(game.board, s.position, d), s) {
          FilteredMember(game, s.position, occupiedPositions, VisitableBy(s), AllCardinals, d);
        }
        Track(s, legalMoves);
      }
    }

    /** A ship's visitable moves become its should-move options, each target
        watched. */
    method Track(s: Ship, moves: seq<Direction>)
      requires Valid()
      requires forall d :: d in moves ==> CanVisit(game, DirectionalOffset(game.board, s.position, d), s)
      modifies this`shouldMoveShips, this`shouldMoveShipAttentionMaps
      ensures Valid()
      ensures shouldMoveShips == old(shouldMoveShips)[s := moves]
      ensures forall d :: d in moves ==> DirectionalOffset(game.board, s.position, d) in shouldMoveShipAttentionMaps && s in shouldMoveShipAttentionMaps[DirectionalOffset(game.board, s.position, d)]
    {
      shouldMoveShips := shouldMoveShips[s := moves];
      Watch(s, moves);
    }

    /** One rebuild pass of fixCommands: the first command that is not
        exempt among those aimed at each bad cell is replaced by STILL (or,
        when its own cell is claimed, by a moveAnywhere pick onto a cell
        claimed by nobody before the pass) whose target is then claimed;
        every other command is kept, in place. */
    method RepairPass(badPositions: set<Position>)
      requires ValidMap(game.board)
      modifies this`commandRegister, this`occupiedPositions
      ensures ShipsOf(commandRegister) == ShipsOf(old(commandRegister))
      ensures |commandRegister| == |old(commandRegister)|
      ensures forall i :: 0 <= i < |commandRegister| ==>
        if Replaced(old(commandRegister), badPositions, i)
        then Replacement(game.board, old(occupiedPositions), occupiedPositions, old(commandRegister)[i], commandRegister[i])
        else commandRegister[i] == old(commandRegister)[i]
      ensures old(occupiedPositions) <= occupiedPositions
    {
      var bad := badPositions;
      var newCommands: seq<ShipCommand> := [];
      var i := 0;
      while i < |commandRegister|
        invariant 0 <= i <= |commandRegister|
        invariant commandRegister == old(commandRegister)
        invariant |newCommands| == i
        invariant ShipsOf(newCommands) == ShipsOf(commandRegister[..i])
        invariant bad == badPositions - NonExemptDests(commandRegister[..i])
        invariant forall k :: 0 <= k < i ==>
          if Replaced(commandRegister, badPositions, k)
          then Replacement(game.board, old(occupiedPositions), occupiedPositions, commandRegister[k], newCommands[k])
          else newCommands[k] == commandRegister[k]
        invariant old(occupiedPositions) <= occupiedPositions
      {
        var c := commandRegister[i];
        ShipsOfSnoc(commandRegister[..i], c);
        assert commandRegister[..i + 1] == commandRegister[..i] + [c];
        assert commandRegister[..i + 1][..i] == commandRegister[..i];
        if c.canCollide || c.destination !in bad || c.ship.position == c.destination {
          ShipsOfSnoc(newCommands, c);
          newCommands := newCommands + [c];
        } else {
          bad := bad - {c.destination};
          ghost var before := occupiedPositions;
          var replacement := Reroute(c);
          ShipsOfSnoc(newCommands, replacement);
          ReplacementsGrow(game.board, old(occupiedPositions), before, occupiedPositions, commandRegister, newCommands, badPositions, i);
          newCommands := newCommands + [replacement];
        }
        i := i + 1;
      }
      assert commandRegister[..|commandRegister|] == commandRegister;
      commandRegister := newCommands;
    }

    /** The replacement step of fixCommands for the command c: STILL, or
        moveAnywhere's choice when the ship's own cell is claimed, which
        moves only onto a cell nobody had claimed; the new target is
        claimed. */
    method Reroute(c: ShipCommand) returns (n: ShipCommand)
      requires ValidMap(game.board)
      modifies this`occupiedPositions
      ensures Replacement(game.board, old(occupiedPositions), occupiedPositions, c, n)
      ensures occupiedPositions == old(occupiedPositions) + {n.destination}
    {
      var d := Still;
      if c.ship.position in occupiedPositions {
        var r := MoveAnywhere(game, c.ship, occupiedPositions, false, RandomChoice);
        d := r.value;
      }
      n := Move(game.board, c.ship, d);
      occupiedPositions := occupiedPositions + {DirectionalOffset(game.board, c.ship.position, d)};
    }

    /** The clash scan of fixCommands: badPositions are the destinations that
        a second counted command reaches. */
    method FindClashes() returns (badPositions: set<Position>)
      ensures badPositions == Clashes(commandRegister, collisionsAllowed)
    {
      var positions: set<Position> := {};
      badPositions := {};
      var i := 0;
      while i < |commandRegister|
        invariant 0 <= i <= |commandRegister|
        invariant positions == Claimed(commandRegister[..i], collisionsAllowed)
        invariant badPositions == Clashes(commandRegister[..i], collisionsAllowed)
      {
        var c := commandRegister[i];
        assert commandRegister[..i + 1][..i] == commandRegister[..i];
        if !c.canCollide && c.destination !in collisionsAllowed {
          if c.destination in positions {
            badPositions := badPositions + {c.destination};
          }
          positions := positions + {c.destination};
        }
        i := i + 1;
      }
      assert commandRegister[..|commandRegister|] == commandRegister;
    }

    /** fixCommands(), with at most `fuel` repair passes. Every ship without
        a command gets STILL; passes repeat until no two counted commands
        share a destination, each replacing commands one for one and never
        touching an exempt one, so those STILL commands survive; `repaired`
        is the list the passes leave. When out of time, exactly the commands
        of that list that leave their ship's cell are kept, in order
        (conversions are dropped). `converged` is false when the fuel ran
        out first, in which case the source would still be looping. */
    method FixCommands(fuel: nat) returns (converged: bool, ghost repaired: seq<ShipCommand>)
      requires Valid()
      modifies this`commandRegister, this`occupiedPositions
      ensures UniqueShips(ShipsOf(repaired)) && UniqueShips(ShipsOf(commandRegister))
      ensures forall s :: s in allShips ==> s in ShipsOf(repaired)
      ensures forall s :: s in allShips && s !in ShipsOf(old(commandRegister)) ==> Move(game.board, s, Still) in repaired
      ensures forall c :: c in old(commandRegister) && Exempt(c) ==> c in repaired
      ensures converged ==> NoIllegalSharing(repaired, collisionsAllowed) && NoIllegalSharing(commandRegister, collisionsAllowed)
      ensures commandRegister == if converged && outOfTime then KeepCommands(repaired, Leaves) else repaired
      ensures converged && outOfTime ==> forall c :: c in commandRegister <==> c in repaired && c.destination != c.ship.position
    {
      AddStills();
      ghost var stilled := commandRegister;
      converged := Repair(fuel);
      repaired := commandRegister;
      forall s | s in allShips && s !in ShipsOf(old(commandRegister))
        ensures Move(game.board, s, Still) in repaired
      {
        OffsetStill(game.board, s.position);
        assert Exempt(Move(game.board, s, Still)) && Move(game.board, s, Still) in stilled;
      }
      if !converged {
        return;
      }

      if outOfTime {
        KeepPreservesUnique(commandRegister, Leaves);
        NoSharingKept(commandRegister, collisionsAllowed, Leaves);
        commandRegister := KeepCommands(commandRegister, Leaves);
      }
    }

    /** The first loop of fixCommands: every ship of ours without a command
        gets STILL, and nothing else is added; the commands already
        registered are kept. */
    method AddStills()
      requires Valid()
      modifies this`commandRegister
      ensures commandRegister == old(commandRegister) + Stills(game.board, allShips, set c | c in old(commandRegister) :: c.ship)
      ensures UniqueShips(ShipsOf(commandRegister))
      ensures forall s :: s in allShips ==> s in ShipsOf(commandRegister)
      ensures forall c :: c in old(commandRegister) ==> c in commandRegister
      ensures forall c :: c in commandRegister && c !in old(commandRegister) ==> c == Move(game.board, c.ship, Still) && Exempt(c)
      ensures forall s :: s in allShips && s !in ShipsOf(old(commandRegister)) ==> Move(game.board, s, Still) in commandRegister
    {
      var ships := set c | c in commandRegister :: c.ship;
      commandRegister := AppendStills(game.board, commandRegister, allShips, ships);
      StillsMembers(game.board, allShips, ships);
      forall c | c in commandRegister && c !in old(commandRegister)
        ensures c == Move(game.board, c.ship, Still) && Exempt(c)
      {
        OffsetStill(game.board, c.ship.position);
      }
      forall s | s in allShips
        ensures s in ShipsOf(commandRegister)
      {
        if s in ships {
          var c :| c in old(commandRegister) && c.ship == s;
          ShipsOfMember(commandRegister, c);
        } else {
          ShipsOfMember(commandRegister, Move(game.board, s, Still));
        }
      }
      forall s | s in allShips && s !in ShipsOf(old(commandRegister))
        ensures Move(game.board, s, Still) in commandRegister
      {
        if s in ships {
          var c :| c in old(commandRegister) && c.ship == s;
          ShipsOfMember(old(commandRegister), c);
        }
      }
    }

    /** The repair passes of fixCommands, at most `fuel` of them; `converged`
        says a pass found no clash. Exempt commands are never replaced. */
    method Repair(fuel: nat) returns (converged: bool)
      requires ValidMap(game.board)
      requires UniqueShips(ShipsOf(commandRegister))
      requires forall s :: s in allShips ==> s in ShipsOf(commandRegister)
      modifies this`commandRegister, this`occupiedPositions
      ensures UniqueShips(ShipsOf(commandRegister))
      ensures forall s :: s in allShips ==> s in ShipsOf(commandRegister)
      ensures forall c :: c in old(commandRegister) && Exempt(c) ==> c in commandRegister
      ensures converged ==> NoIllegalSharing(commandRegister, collisionsAllowed)
    {
      var passes := fuel;
      converged := false;
      while passes > 0
        invariant UniqueShips(ShipsOf(commandRegister))
        invariant forall s :: s in allShips ==> s in ShipsOf(commandRegister)
        invariant forall c :: c in old(commandRegister) && Exempt(c) ==> c in commandRegister
        invariant converged ==> NoIllegalSharing(commandRegister, collisionsAllowed)
        decreases passes
      {
        var badPositions := FindClashes();
        if badPositions == {} {
          NoClashesMeansNoSharing(commandRegister, collisionsAllowed);
          converged := true;
          break;
        }
        ghost var before := commandRegister;
        RepairPass(badPositions);
        forall c | c in before && Exempt(c) ensures c in commandRegister {
          var k :| 0 <= k < |before| && before[k] == c;
          assert commandRegister[k] == c;
        }
        passes := passes - 1;
      }
    }

    /** getCommands(): the repaired ship commands, in ledger order, then the
        spawn command if one was registered. */
    method GetCommands(fuel: nat) returns (commands: seq<Command>, converged: bool, ghost repaired: seq<ShipCommand>)
      requires Valid()
      modifies this`commandRegister, this`occupiedPositions
      ensures |commands| == |commandRegister| + (if spawn then 1 else 0)
      ensures forall i :: 0 <= i < |commandRegister| ==> commands[i] == ShipOrder(commandRegister[i])
      ensures spawn ==> commands[|commands| - 1] == SpawnShip
      ensures converged ==> NoIllegalSharing(commandRegister, collisionsAllowed)
      ensures UniqueShips(ShipsOf(commandRegister))
      ensures forall s :: s in allShips ==> s in ShipsOf(repaired)
      ensures forall s :: s in allShips && s !in ShipsOf(old(commandRegister)) ==> Move(game.board, s, Still) in repaired
      ensures commandRegister == if converged && outOfTime then KeepCommands(repaired, Leaves) else repaired
      ensures !(converged && outOfTime) ==> forall s :: s in allShips ==> s in ShipsOf(commandRegister)
    {
      converged, repaired := FixCommands(fuel);
      commands := [];
      var i := 0;
      while i < |commandRegister|
        invariant 0 <= i <= |commandRegister|
        invariant |commands| == i
        invariant forall k :: 0 <= k < i ==> commands[k] == ShipOrder(commandRegister[k])
      {
        commands := commands + [ShipOrder(commandRegister[i])];
        i := i + 1;
      }
      if spawn {
        commands := commands + [SpawnShip];
      }
    }
  }
}
