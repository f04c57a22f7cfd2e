# A verified model of a Halite III bot's turn logic

This project models, in Dafny, the decision core of a Java bot for Halite III, the
programming game in which ships mine halite on a toroidal grid and bring it back
to a shipyard or dropoff. Each turn the bot:

- registers one command per ship in a move register that refuses clashes and
  forces ships off dropoffs;
- navigates with deterministic or random tiebreakers;
- plans mining targets through a breadth-first cost field and an auction between
  ships;
- routes returning ships along safe, low-halite paths;
- contests exceptionally rich cells and guards dropoffs at the end of the game;
- reads its tuning constants from a per-map table that command-line overrides
  can replace.

The model follows the source file by file:

| Dafny module | file | source |
|---|---|---|
| `Geometry` | geometry.dfy | hlt/GameMap.java, hlt/Position.java, hlt/Direction.java |
| `World` | world.dfy | game state: ships, structures, cells, constants |
| `ShipCommands` | ship_commands.dfy | hlt/ShipCommand.java |
| `CommonFunctions` | common_functions.dfy | bots/current_bot/utils/CommonFunctions.java |
| `ForcedStills` | forced_stills.dfy | CommonFunctions.getForcedStills |
| `Tiebreakers` | tiebreakers.dfy | the four deterministic tiebreakers and the random one |
| `Navigation` | navigation.dfy | bots/current_bot/navigation/Navigation.java |
| `MoveRegistry` | move_register.dfy | bots/current_bot/utils/MoveRegister.java |
| `AnyMoves` | any_moves.dfy | bots/current_bot/navigation/AnyMoves.java |
| `MultiTurnNavigation` | multi_turn_navigator.dfy | bots/current_bot/navigation/MultiTurnNavigator.java |
| `MiningScores` | mining_scores.dfy | bots/current_bot/mining/MiningScoresFromPosition.java |
| `Mining` | mining_functions.dfy | bots/current_bot/mining/MiningFunctions.java |
| `Preferences` | preferences_comparator.dfy | bots/current_bot/mining/PreferencesComparator.java |
| `SafeRoutes` | safe_route_map.dfy | Returning.SafeRouteMap |
| `Returning` | returning.dfy | the rest of bots/current_bot/returning/Returning.java |
| `MapStats` | map_stats_keeper.dfy | bots/current_bot/navigation/MapStatsKeeper.java |
| `ExceptionalSquares` | exceptional_squares.dfy | bots/current_bot/ExceptionalSquareHandler.java |
| `Guarding` | guarding.dfy | bots/current_bot/Guarding.java |
| `BotConfig` | bot_constants.dfy | bots/current_bot/utils/BotConstants.java, BotConstantsArgs.java |
| `Wrappers` | wrappers.dfy | `Option` and `Result`, standing for `null`, `Optional` and exceptions |

Pure Java code (geometry, commands, tiebreakers, comparators, score
comparisons) appears as datatypes, functions and lemmas. Code that updates
state step by step keeps that form:

- the move register is a class whose methods modify its fields;
- the loops of navigation, the breadth-first searches, the mining auction and
  the guard and contest handlers are methods with loop invariants;
- each method is proved against a specification function, and the
  properties the bot relies on are proved about that function.

A thrown exception becomes an `Err` result. A random choice becomes a
nondeterministic one.

## Model

| member | source | states |
|---|---|---|
| Geometry.DirCharRoundTrip | hlt/ShipCommand.java:22 | the direction letter written into a move command identifies the direction |
| Geometry.JavaRem | hlt/GameMap.java:139-145 | Java's `%` keeps the sign of the dividend, stays strictly inside (-b, b), and is the identity on (-b, b) |
| Geometry.NormaliseX | hlt/GameMap.java:139-141 | normaliseX wraps any x in [-height, 2·height) onto the board; below -height it stays non-positive |
| Geometry.NormaliseY | hlt/GameMap.java:143-145 | normaliseY wraps any y in [-width, 2·width) onto the board; below -width it stays non-positive |
| Geometry.NormaliseCongruent | hlt/GameMap.java:139-145 | for x ≥ -height the result lies in [0, height) and is congruent to x; likewise for y and width |
| Geometry.DistanceOverloadsAgree | hlt/GameMap.java:28-59 | the Position, (x1, y1, x2, y2) and (x, y, Position) overloads of calculateDistance compute the same value |
| Geometry.AxisDistanceBounds | hlt/GameMap.java:30-34 | a wrapped axis distance is symmetric, at most half the dimension, and zero exactly for equal coordinates |
| Geometry.DistanceProperties | hlt/GameMap.java:28-37 | on a square map the distance is symmetric, at most width/2 + height/2, and zero exactly on equal positions |
| Geometry.WithVectorOffset | hlt/Position.java:44-48 | an offset of at least minus one dimension on each axis lands on the board |
| Geometry.DirectionalOffset | hlt/Position.java:50-80 | a step from a cell on the board stays on the board |
| Geometry.DirectionalOffsetBy | hlt/Position.java:114-144 | a step of r ≤ the map's sides from a cell on the board stays on the board |
| Geometry.OffsetByOne | hlt/Position.java:114-144 | directionalOffset(d, map, 1) equals directionalOffset(d, map) |
| Geometry.OffsetStill | hlt/Position.java:71-74 | STILL leaves a position unchanged |
| Geometry.OffsetCoordinates | hlt/Position.java:54-79 | east and west change only x, south and north only y, each by one with wrap-around |
| Geometry.SurroundingCardinals | hlt/Position.java:34-42 | getSurroundingCardinals lists exactly the four unit steps, in ALL_CARDINALS order |
| Geometry.DirectionToNeverThrows | hlt/Position.java:83-90 | getDirectionTo never reaches its throw, and gives STILL exactly for the position itself |
| Geometry.DirectionToInvertsOffset | hlt/Position.java:83-90 | on a square map with sides of at least 3, getDirectionTo inverts every unit step |
| Geometry.DirectionToSmallMap | hlt/Position.java:85-86 | on a 2×2 map a step west reads back as east, so the side bound above is needed |
| Geometry.UnsafeMovesShape | hlt/GameMap.java:61-87 | `[STILL]` exactly for equal positions; otherwise one direction per differing axis, east/west first, never STILL |
| Geometry.UnsafeMovesApproach | hlt/GameMap.java:69-84 | on a square map every direction getUnsafeMoves offers reduces the distance to the destination by exactly one |
| Geometry.OffsetDistanceOne | hlt/Position.java:50-80 | a cardinal step lands at distance one on a square map with at least two columns |
| ShipCommands.NatText | hlt/ShipCommand.java:17 | an entity id is written as a non-empty string of decimal digits |
| ShipCommands.NatTextRoundTrip | hlt/ShipCommand.java:17 | the decimal text of an id parses back to the id |
| ShipCommands.MoveCommandMeaning | hlt/ShipCommand.java:20-23 | a move command reads back as `m <id> <dir>`, goes to the cell one step in that direction, and never tolerates collisions |
| ShipCommands.ConvertCommandMeaning | hlt/ShipCommand.java:16-18 | a conversion reads back as `c <id>`, targets the ship's own cell, and tolerates collisions |
| ShipCommands.SpawnCommandMeaning | hlt/Command.java:6-8 | the spawn command is the single letter `g` and reads back as a spawn order |
| ShipCommands.DigitRoundTrip | hlt/ShipCommand.java:17 | every decimal digit is written as a character that reads back as the same digit |
| CommonFunctions.GetNeighbourhood | bots/current_bot/utils/CommonFunctions.java:26-38 | the loop builds exactly the ring-by-ring offset list of the diamond of radius `distance` |
| CommonFunctions.DiamondSize | bots/current_bot/utils/CommonFunctions.java:28-36 | ring s adds 4s cells, so the neighbourhood of radius d has 1 + 2d(d+1) entries |
| CommonFunctions.DiamondExact | bots/current_bot/utils/CommonFunctions.java:28-36 | an offset (a, b) is listed exactly when abs(a) + abs(b) ≤ d |
| CommonFunctions.NeighbourhoodStartsAtCentre | bots/current_bot/utils/CommonFunctions.java:26-38 | the neighbourhood starts with the centre and has 1 + 2d(d+1) entries |
| CommonFunctions.NeighbourhoodWithin | bots/current_bot/utils/CommonFunctions.java:28-34 | every entry is on the board within toroidal distance d of the centre |
| CommonFunctions.MineAmount | bots/current_bot/utils/CommonFunctions.java:46-50 | mining never takes the cargo past MAX_HALITE, never takes more than the cell holds, and takes at least one from a non-empty cell when there is room |
| CommonFunctions.MineAmountForShip | bots/current_bot/utils/CommonFunctions.java:40-44 | the Ship overload computes what the int overload computes for the ship's cargo |
| CommonFunctions.MineAmountInspired | bots/current_bot/utils/CommonFunctions.java:87-94 | the inspired amount is never below the plain one, equals it without inspiration, and obeys the same MAX_HALITE cap |
| CommonFunctions.MoveCost | bots/current_bot/utils/CommonFunctions.java:64-66 | the move cost is halite divided by MOVE_COST_RATIO, rounded down |
| CommonFunctions.GetDropoffPositions | bots/current_bot/utils/CommonFunctions.java:52-58 | the shipyard first, then the plan destination when there is a plan, then every dropoff in order |
| CommonFunctions.ShipOwnershipSplit | bots/current_bot/utils/CommonFunctions.java:60-102 | a cell with a ship holds exactly one of a friendly and an enemy ship |
| CommonFunctions.FriendlyShipsOnSound | bots/current_bot/utils/CommonFunctions.java:69-77 | the listed ships are ours and stand on listed cells, at most one per cell |
| CommonFunctions.OurShipsNearby | bots/current_bot/utils/CommonFunctions.java:69-77 | the loop collects our ships on the neighbourhood's cells, in neighbourhood order |
| CommonFunctions.NearestFriendlyShip | bots/current_bot/utils/CommonFunctions.java:79-85 | the result is at most 1000, at most every own ship's distance, and is 1000 or some own ship's distance |
| ForcedStills.StillIfStuck | bots/current_bot/utils/CommonFunctions.java:15-20 | the result is whether the ship must stay (cargo below its cell's move cost); such a ship ends held, that is committed with STILL on its claimed cell or forced by a cascade, and the register only evolves with that ship exempt, keeping every command or its must-move destination; any other ship leaves the register untouched |
| ForcedStills.ForceOne | bots/current_bot/utils/CommonFunctions.java:14-20 | one turn of the loop: the ids gathered are exactly those of the visited ships that must stay, every such ship is held, and a ship still to visit that has left the remaining set was forced |
| ForcedStills.HeldStillKept | bots/current_bot/utils/CommonFunctions.java:14-20 | a ship held by an earlier turn of the loop stays held while later registrations only evolve the register and keep its commands |
| ForcedStills.GetForcedStills | bots/current_bot/utils/CommonFunctions.java:10-23 | called with nothing claimed yet; the ids returned are exactly those of the remaining ships that must stay, each of these ships ends held (committed with STILL on its claimed cell, or forced by a cascade), and ships only leave the remaining set |
| Tiebreakers.MakeLongerAxis | bots/current_bot/navigation/LongerAxisTiebreaker.java:10-18 | xBetter holds exactly when the wrapped x distance exceeds the wrapped y distance; ties favour y |
| Tiebreakers.LongerAxisBetter | bots/current_bot/navigation/LongerAxisTiebreaker.java:21-24 | d1 when d1 lies on the favoured axis (STILL counts as off the x axis), otherwise d2 |
| Tiebreakers.LongerAxisFavoursAvailableAxis | bots/current_bot/navigation/LongerAxisTiebreaker.java:10-18 | for distinct cells, getUnsafeMoves offers a step along the favoured axis |
| Tiebreakers.ClockwiseBetter | bots/current_bot/navigation/ClockwiseTiebreaker.java:9-17 | the result is one of the arguments, and STILL loses to any other direction |
| Tiebreakers.ClockwiseOrder | bots/current_bot/navigation/ClockwiseTiebreaker.java:12-15 | N beats E, E beats S, S beats W, W beats N in either argument order; other pairs give d2 |
| Tiebreakers.ClockwiseOppositeOrderDependent | bots/current_bot/navigation/ClockwiseTiebreaker.java:12-15 | for opposite directions the result depends on the argument order |
| Tiebreakers.PreferredAxisBetter | bots/current_bot/navigation/PreferredAxisTiebreaker.java:14-21 | d1 exactly when its axis differs from the preferred direction's axis (STILL classed with north and south), else d2 |
| Tiebreakers.LowHaliteBetter | bots/current_bot/navigation/LowHaliteTiebreaker.java:9-13 | the direction whose target has strictly less halite, d2 on equal halite; the chosen target holds the minimum of the two |
| Tiebreakers.Better | bots/current_bot/navigation/Navigation.java:29-32 | every deterministic tiebreaker returns one of its arguments, and the argument itself when both are equal |
| Tiebreakers.Choose | bots/current_bot/navigation/AnyMoves.java:13 | any tiebreaker, the random one included, returns one of its arguments; a deterministic one returns its function's value |
| Navigation.FilteredMember | bots/current_bot/navigation/Navigation.java:104-117 | a direction passes the filter exactly when it is a candidate whose target the filter keeps |
| Navigation.Filtered | bots/current_bot/navigation/Navigation.java:104-117 | the kept directions are no more than the candidates; which directions they are is stated by FilteredMember |
| Navigation.Consider | bots/current_bot/navigation/Navigation.java:52-59 | one kept direction offered to the running choice: the first is taken, later ones go through the tiebreaker, so the choice is this direction or the old one, and for a deterministic tiebreaker it is the fold over the directions kept so far |
| Navigation.Fold | bots/current_bot/navigation/Navigation.java:41-61 | the tiebreaker fold finds a direction exactly for a non-empty candidate list, and it is one of the candidates |
| Navigation.BestAmong | bots/current_bot/navigation/Navigation.java:41-61 | the scan finds a direction exactly when some candidate's target is kept; the direction is such a candidate and, for a deterministic tiebreaker, the fold's choice |
| Navigation.NavigateUnsafe | bots/current_bot/navigation/Navigation.java:34-62 | a result is a getUnsafeMoves direction into an unoccupied cell; there is none exactly when all of them are occupied |
| Navigation.Navigate | bots/current_bot/navigation/Navigation.java:64-95 | as navigateUnsafe, and the chosen target also passes canVisit |
| Navigation.UnsafeStep | bots/current_bot/navigation/Navigation.java:34-62 | navigateUnsafe with the low-halite tiebreaker gives exactly the low-halite fold of the unoccupied getUnsafeMoves directions (TowardUnsafe) |
| Navigation.SafeStep | bots/current_bot/navigation/Navigation.java:9-11 | navigateLowHaliteDefaultSafety gives exactly the low-halite fold of the unoccupied, visitable getUnsafeMoves directions (Toward) |
| Navigation.NavigateLongerAxis | bots/current_bot/navigation/Navigation.java:13-15 | navigate with the longer-axis tiebreaker built for the target |
| Navigation.NavigateAll | bots/current_bot/navigation/Navigation.java:97-118 | exactly the getUnsafeMoves directions whose target is unoccupied and visitable, in their original order |
| Navigation.BestCardinal | bots/current_bot/navigation/Navigation.java:127-158 | one tier of moveAnywhere finds a cardinal exactly when some cardinal's target the tier keeps |
| Navigation.MoveAnywhere | bots/current_bot/navigation/Navigation.java:120-200 | the three tiers in order; a cardinal result targets an unoccupied cell; with mustMove never STILL and an error exactly when all four cardinals are occupied; otherwise STILL when no tier finds one |
| Navigation.TowardUnsafeMeaning | bots/current_bot/navigation/Navigation.java:34-62 | the unsafe navigation's function finds a step exactly when some offered step lands outside the occupied set, and then it is such a step |
| AnyMoves.MoveOne | bots/current_bot/navigation/AnyMoves.java:12-14 | a ship gets moveAnywhere's direction with mustMove from the register; the only failure is a ship that must move and cannot, and it changes nothing |
| AnyMoves.GetMoveCommands | bots/current_bot/navigation/AnyMoves.java:10-16 | over the snapshot of remaining ships, each is registered here or by a cascade; without an error no ship remains |
| MoveRegistry.ShipsOf | bots/current_bot/utils/MoveRegister.java:212 | one ship per command, so the projection has the command list's length |
| MoveRegistry.UniqueMeansDistinct | bots/current_bot/utils/MoveRegister.java:212-215 | the left-to-right "not seen yet" test on a ship list holds exactly when all its ships are pairwise distinct |
| MoveRegistry.KeepCommands | bots/current_bot/utils/MoveRegister.java:188-189 | a filtered command list is no longer than the original and holds exactly the commands of it that pass the filter |
| MoveRegistry.KeepPreservesUnique | bots/current_bot/utils/MoveRegister.java:188-189 | filtering a command list with one command per ship keeps one command per ship |
| MoveRegistry.ClaimedExact | bots/current_bot/utils/MoveRegister.java:219-229 | a cell is in the scan's positions set exactly when some command that is neither collision-tolerant nor aimed at a collisionsAllowed cell ends there |
| MoveRegistry.NoClashesMeansNoSharing | bots/current_bot/utils/MoveRegister.java:219-230 | badPositions is empty exactly when no two counted commands share a destination, i.e. the repair loop stops exactly on a collision-free register |
| MoveRegistry.NoSharingKept | bots/current_bot/utils/MoveRegister.java:259-263 | removing commands (the out-of-time filter) never creates a shared destination |
| MoveRegistry.DropoffMustMovesExact | bots/current_bot/utils/MoveRegister.java:36-47 | a cell becomes a must-move entry exactly when it is one of our dropoff or shipyard cells and holds one of our ships, and its options are all four cardinals |
| MoveRegistry.PrunedOptions | bots/current_bot/utils/MoveRegister.java:112-115 | a direction survives pruning exactly when it was an option and does not lead into the newly claimed cell |
| MoveRegistry.EvolvedTrans | bots/current_bot/utils/MoveRegister.java:86-140 | the allowed change of the register (ships only leave, and only by being forced unless exempt; claims, must-move cells and tolerances only grow; options only shrink) composes across calls |
| MoveRegistry.MoveRegister.constructor | bots/current_bot/utils/MoveRegister.java:32-48 | every ship is remaining, nothing is claimed or commanded; with rush off the must-move entries are exactly our occupied dropoff and shipyard cells, with rush on there are none |
| MoveRegistry.MoveRegister.RegisterMove | bots/current_bot/utils/MoveRegister.java:86-140 | succeeds exactly for a remaining or forced ship (otherwise the duplicate-command error); a ship no longer remaining changes nothing; a remaining ship leaves the remaining set and its destination is claimed; the register only evolves, and other ships leave only by being forced |
| MoveRegistry.MoveRegister.MovedNeedNotMove | bots/current_bot/utils/MoveRegister.java:287-290 | mustMove is false for a ship that already has a command, and for one off the must-move cells |
| MoveRegistry.MoveRegister.ForceMove | bots/current_bot/utils/MoveRegister.java:149-150 | the ship is marked forced, leaves the remaining set and its destination is claimed; the register only evolves |
| MoveRegistry.MoveRegister.PruneMustMoves | bots/current_bot/utils/MoveRegister.java:108-119 | the checkPos loop keeps the register valid and only evolves it: any ship it moves is a forced ship |
| MoveRegistry.MoveRegister.PruneMustMove | bots/current_bot/utils/MoveRegister.java:110-117 | pruning one adjacent must-move cell and re-checking it keeps the register valid and only evolves it |
| MoveRegistry.MoveRegister.CheckMustMovePosition | bots/current_bot/utils/MoveRegister.java:142-201 | unless exactly one option is left and the cell's ship is still remaining, nothing changes; otherwise that ship is forced, leaves the remaining set, its destination is claimed and becomes a must-move destination |
| MoveRegistry.MoveRegister.AddMustMoveDest | bots/current_bot/utils/MoveRegister.java:152 | the forced destination is added to mustMoveDests and nothing else changes |
| MoveRegistry.MoveRegister.SetMustMove | bots/current_bot/utils/MoveRegister.java:195 | the must-move cell gets exactly the given options |
| MoveRegistry.MoveRegister.ExitsAvoiding | bots/current_bot/utils/MoveRegister.java:164-171 | the cardinals, in ALL_CARDINALS order, whose targets avoid the blocked cells |
| MoveRegistry.MoveRegister.ExitsFor | bots/current_bot/utils/MoveRegister.java:164-191 | the cardinals avoiding must-move cells, must-move destinations and claims; if none, the last cardinal avoiding the first two after every command into its target is cancelled; if not even that, none, and the cell becomes collision tolerant |
| MoveRegistry.MoveRegister.Fallback | bots/current_bot/utils/MoveRegister.java:172-191 | the last cardinal avoiding the blocked cells, with every command into its target cancelled and the rest kept; without one, no option and the cell becomes collision tolerant |
| MoveRegistry.MoveRegister.CancelInto | bots/current_bot/utils/MoveRegister.java:188-189 | exactly the commands not aimed at the cell are kept |
| MoveRegistry.MoveRegister.RedirectTargetShip | bots/current_bot/utils/MoveRegister.java:155-198 | the ship on the forced target's cell becomes a must-move cell; when no cardinal of that cell avoids the must-move cells and destinations, the cell becomes collision tolerant; the register stays valid, only evolves, and drops a command only when its target is a must-move destination |
| MoveRegistry.MoveRegister.PruneShouldMoves | bots/current_bot/utils/MoveRegister.java:121-139 | the attention loop keeps the register valid and only evolves it: options only shrink and ships leave only by being forced |
| MoveRegistry.MoveRegister.PruneWatcher | bots/current_bot/utils/MoveRegister.java:123-137 | a watcher that is no longer remaining changes nothing; a remaining watcher keeps only old options that avoid the claimed cell |
| MoveRegistry.MoveRegister.SetOptions | bots/current_bot/utils/MoveRegister.java:125 | the watcher's should-move options become the pruned list, a subset of its old ones |
| MoveRegistry.MoveRegister.RegisterDropoff | bots/current_bot/utils/MoveRegister.java:203-208 | the ship leaves the remaining set and exactly its conversion command is appended |
| MoveRegistry.MoveRegister.RegisterPossibleCollision | bots/current_bot/utils/MoveRegister.java:278-281 | the cell is added to the collision-tolerant set |
| MoveRegistry.MoveRegister.RegisterSpawn | bots/current_bot/utils/MoveRegister.java:292-298 | the first call sets spawn and claims the shipyard; a second call is the "Already spawning" error and claims nothing |
| MoveRegistry.MoveRegister.LegalMoves | bots/current_bot/utils/MoveRegister.java:55-61 | the cardinals, in ALL_CARDINALS order, whose targets the ship may visit and that are not claimed |
| MoveRegistry.MoveRegister.Watch | bots/current_bot/utils/MoveRegister.java:72-76 | each option's target lists the ship in its attention list, and every existing attention entry is kept |
| MoveRegistry.MoveRegister.Track | bots/current_bot/utils/MoveRegister.java:71-76 | the moves become the ship's should-move options and each target's attention list holds the ship |
| MoveRegistry.MoveRegister.TrackShip | bots/current_bot/utils/MoveRegister.java:51-79 | a ship on a must-move cell, that may stay, or with no legal move leaves everything unchanged; with one legal move it is committed there; with several they become its options, each target watched; afterwards it may stay or is tracked |
| MoveRegistry.MoveRegister.StartTrackingLegalMoves | bots/current_bot/utils/MoveRegister.java:50-80 | ships only leave the remaining set and claims only grow; afterwards every remaining ship that may not stay where it is has been committed, is on a must-move cell, has should-move options, or has no visitable unclaimed cardinal; only such ships gain should-move options |
| MoveRegistry.MoveRegister.FindClashes | bots/current_bot/utils/MoveRegister.java:219-229 | the scan returns exactly the destinations a counted command reaches after an earlier counted command already did |
| MoveRegistry.MoveRegister.AddStills | bots/current_bot/utils/MoveRegister.java:211-215 | every ship without a command gets STILL, appended in order, nothing else is added, and each ship ends with exactly one command |
| MoveRegistry.AppendStills | bots/current_bot/utils/MoveRegister.java:212-215 | the loop appends, in order, a STILL command for exactly the ships of allShips that have no command, and one command per ship is kept |
| MoveRegistry.MoveRegister.Reroute | bots/current_bot/utils/MoveRegister.java:242-253 | the replacement is a move of the same ship whose target is then claimed: STILL, or, when the ship's own cell is claimed, moveAnywhere's choice, which moves only onto a cell nobody had claimed |
| MoveRegistry.MoveRegister.RepairPass | bots/current_bot/utils/MoveRegister.java:231-256 | the same ships in the same order; the first non-exempt command aimed at each bad cell is replaced by a move of its own ship whose target is claimed: STILL unless the ship's own cell was claimed, and a moving replacement goes to a cell nobody had claimed before the pass; every other command stays in place; claims only grow |
| MoveRegistry.MoveRegister.Repair | bots/current_bot/utils/MoveRegister.java:217-257 | passes keep one command per ship and every ship covered, never drop an exempt command, and when they stop no two counted commands share a destination |
| MoveRegistry.MoveRegister.FixCommands | bots/current_bot/utils/MoveRegister.java:210-264 | one command per ship; every ship without a command gets STILL and the repair never drops an exempt command, so those STILL commands survive; when the loop stops no two counted commands share a destination; not out of time, every ship has a command; out of time, exactly the repaired commands that leave their ship's cell are kept, in order |
| MoveRegistry.MoveRegister.GetCommands | bots/current_bot/utils/MoveRegister.java:266-276 | the repaired ship commands in register order, followed by the spawn command exactly when a spawn was registered; one command per ship; collision-free when the loop stopped; every ship has a command unless the out-of-time filter removed its STILL |
| MultiTurnNavigation.ExtensionsMember | bots/current_bot/navigation/MultiTurnNavigator.java:32-43 | a plan extension is the plan plus the cell one direction away, for exactly the directions whose cell is not occupied |
| MultiTurnNavigation.ExtendPlanMember | bots/current_bot/navigation/MultiTurnNavigator.java:32-43 | every extension is one cell longer, keeps the plan as prefix, avoids the occupied cells and steps along a direction navigateAll allows (one of the unsafe moves toward the destination) |
| MultiTurnNavigation.ExtendTowards | bots/current_bot/navigation/MultiTurnNavigator.java:32-43 | the loop over navigateAll's directions builds exactly the extensions of the specification |
| MultiTurnNavigation.StepPlansMember | bots/current_bot/navigation/MultiTurnNavigator.java:104-124 | every plan of the next generation extends a plan of the current one by a free cell that steps toward the destination |
| MultiTurnNavigation.Advance | bots/current_bot/navigation/MultiTurnNavigator.java:87-127 | one turn of the search maps a list of non-empty plans to a list of non-empty plans |
| MultiTurnNavigation.StepNonEmpty | bots/current_bot/navigation/MultiTurnNavigator.java:109-123 | extending non-empty plans gives non-empty plans |
| MultiTurnNavigation.StepShaped | bots/current_bot/navigation/MultiTurnNavigator.java:87-127 | one turn turns plans of a common length that start on the ship's cell into such plans one cell longer |
| MultiTurnNavigation.SearchShaped | bots/current_bot/navigation/MultiTurnNavigator.java:87-127 | all surviving plans have one common length, start on the ship's cell, and grow exactly when the loop guard admits another turn |
| MultiTurnNavigation.FirstStepIsMove | bots/current_bot/navigation/MultiTurnNavigator.java:79-127 | when at least one turn is searched, every surviving plan starts on the ship's cell and its first step is toward the destination |
| MultiTurnNavigation.OptionsAtMember | bots/current_bot/navigation/MultiTurnNavigator.java:139-147 | a cell is an option at turn index i exactly when some surviving plan is there at index i |
| MultiTurnNavigation.SingleOption | bots/current_bot/navigation/MultiTurnNavigator.java:145 | an index has exactly one option exactly when all surviving plans agree on it |
| MultiTurnNavigation.SingletonSubset | bots/current_bot/navigation/MultiTurnNavigator.java:145 | a one-element set has one member |
| MultiTurnNavigation.CollectOptions | bots/current_bot/navigation/MultiTurnNavigator.java:140-144 | the loop over the plans collects exactly the index's option set |
| MultiTurnNavigation.Tabulate | bots/current_bot/navigation/MultiTurnNavigator.java:135-147 | options has an entry for every index of the plans holding its option set; determined has exactly the indices with one option, holding that option |
| MultiTurnNavigation.IndexZeroDetermined | bots/current_bot/navigation/MultiTurnNavigator.java:80 | every plan starts on the ship's cell, so index 0 has that one option |
| MultiTurnNavigation.BlockedAt | bots/current_bot/navigation/MultiTurnNavigator.java:90-103 | turn 1 blocks the occupied cells; later turns block the planned cells of every other ship |
| MultiTurnNavigation.AnyReached | bots/current_bot/navigation/MultiTurnNavigator.java:104-106 | the scan finds a plan ending on the destination exactly when one does |
| MultiTurnNavigation.Step | bots/current_bot/navigation/MultiTurnNavigator.java:109-114 | the extension loop builds exactly the next generation of the specification |
| MultiTurnNavigation.AdvanceTurn | bots/current_bot/navigation/MultiTurnNavigator.java:90-126 | one turn of the constructor's loop computes exactly the specified turn |
| MultiTurnNavigation.SearchLoop | bots/current_bot/navigation/MultiTurnNavigator.java:79-127 | the constructor's while loop computes exactly the recursive search from the ship's cell at t = 1 |
| MultiTurnNavigation.FirstOptionIsMove | bots/current_bot/navigation/MultiTurnNavigator.java:168-182 | on a square map at least 3 wide, every first-turn option is one cardinal step from the ship, along a move toward the destination |
| MultiTurnNavigation.MultiTurnNavigator.constructor | bots/current_bot/navigation/MultiTurnNavigator.java:71-150 | canNavigate holds exactly when some plan survives; options and determined then tabulate the surviving plans index by index |
| MultiTurnNavigation.MultiTurnNavigator.AnyMovesDetermined | bots/current_bot/navigation/MultiTurnNavigator.java:156-158 | true exactly when navigation is possible, since index 0 is always determined as the ship's own cell |
| MultiTurnNavigation.MultiTurnNavigator.FirstMoveDetermined | bots/current_bot/navigation/MultiTurnNavigator.java:164-166 | when true, the first turn has a single option, the determined cell |
| MultiTurnNavigation.MultiTurnNavigator.FirstMoveDeterminedMeansAgreement | bots/current_bot/navigation/MultiTurnNavigator.java:139-166 | the first move is determined exactly when all surviving plans agree on their second cell |
| MultiTurnNavigation.MultiTurnNavigator.FirstMove | bots/current_bot/navigation/MultiTurnNavigator.java:168-182 | without a first-turn table it is the null-dereference error; otherwise it returns the direction to one of the first-turn options, the determined one when there is one, and on a square map at least 3 wide a move toward the destination |
| MiningScores.ImprovesIsStrict | bots/current_bot/mining/MiningScoresFromPosition.java:120-124 | an arrival that passes the update test is strictly better than the entry it overwrites |
| MiningScores.NotImprovingIsNoBetter | bots/current_bot/mining/MiningScoresFromPosition.java:120-124 | an arrival that fails the update test is no better than the scored entry it leaves in place |
| MiningScores.NoWorseTrans | bots/current_bot/mining/MiningScoresFromPosition.java:120-124 | the "fewer turns, or as many with no less cargo" order is transitive |
| MiningScores.NextArrival | bots/current_bot/mining/MiningScoresFromPosition.java:90-107 | if the cargo pays the move cost, neighbours are reached one turn later with exactly that cost paid; otherwise two turns later, with one stay's mining (computed from the ship's current cargo) added and the move cost of the mined cell paid, so the cargo grows by at most one turn's mining and the ship stays within capacity |
| MiningScores.FullShipArrivesInDebt | bots/current_bot/mining/MiningScoresFromPosition.java:97-103 | with a full ship (the stay mines with the ship's real cargo) and an empty recorded cargo, the arrival cargo is negative: (7, -100) |
| MiningScores.Relax | bots/current_bot/mining/MiningScoresFromPosition.java:109-133 | a visitable neighbour the update test admits is overwritten with the new arrival and queued for the next or the following layer; a turn count off both layers is the exception; no other cell changes |
| MiningScores.RelaxKeeping | bots/current_bot/mining/MiningScoresFromPosition.java:109-133 | a relaxation keeps the field sound and only improves entries, and a queued neighbour really changed |
| MiningScores.ExpandCell | bots/current_bot/mining/MiningScoresFromPosition.java:87-134 | the only failure is the layer exception; on success the field stays sound and only improves, entries of at most `layer` turns are untouched, every changed cell is in the grown frontiers within their turn bounds, and the expanded cell ends settled: no cell of its neighbourhood would take a better arrival from it |
| MiningScores.ExpandLayer | bots/current_bot/mining/MiningScoresFromPosition.java:86-135 | each cell of the layer adds one iteration (all of them on success); the only failure is the layer exception; on success the field is sound, only improved, unchanged on entries of at most `layer` turns, every change is in the next frontiers, and every cell of the layer is settled |
| MiningScores.RelaxAll | bots/current_bot/mining/MiningScoresFromPosition.java:109-134 | the neighbour loop: on success each neighbour canVisitFuture admits is at least as good as the offered arrival, every change is in the frontiers, entries of at most `layer` turns are untouched, and the field stays sound |
| MiningScores.ExpandNext | bots/current_bot/mining/MiningScoresFromPosition.java:88-134 | expanding one more cell of the layer keeps the layer's progress, with that cell now settled |
| MiningScores.LayerProgressStep | bots/current_bot/mining/MiningScoresFromPosition.java:88-134 | earlier expanded cells stay settled because their entries are frozen, and the newly expanded cell joins them |
| MiningScores.LayerClosed | bots/current_bot/mining/MiningScoresFromPosition.java:86-139 | after a whole layer whose cells are all settled, every reached cell is in one of the two new frontiers or took at most `layer` + 1 turns and is settled |
| MiningScores.SoundNextLayer | bots/current_bot/mining/MiningScoresFromPosition.java:137-139 | a field sound for one layer stays sound for the next |
| MiningScores.StartField | bots/current_bot/mining/MiningScoresFromPosition.java:59-73 | the start cell is scored with 0 turns and the ship's cargo, every other cell is unscored |
| MiningScores.SearchField | bots/current_bot/mining/MiningScoresFromPosition.java:66-140 | the breadth-first search ends sound, stopped at the top check exactly when the count is already over the budget, stopped after a layer only with the budget spent during it, and otherwise drained within budget with the field closed under relaxation: no reached cell would give any neighbour a better arrival |
| MiningScores.CellScore | bots/current_bot/mining/MiningScoresFromPosition.java:142-177 | an unscored cell, a structure, or a cell where arrival cargo plus its halite does not exceed the ship's cargo scores +Infinity with no mining turns; only the remaining cells take the profit-rate score |
| MiningScores.ScoreRow | bots/current_bot/mining/MiningScoresFromPosition.java:143-161 | one row of the tables is filled from the field, and no other row changes |
| MiningScores.ScoreField | bots/current_bot/mining/MiningScoresFromPosition.java:142-162 | every cell of the tables holds exactly its field entry's score and mining turns |
| MiningScores.MiningScoresFromPosition.constructor | bots/current_bot/mining/MiningScoresFromPosition.java:32-39 | the object keeps its inputs and starts with no iterations and no tables |
| MiningScores.MiningScoresFromPosition.Install | bots/current_bot/mining/MiningScoresFromPosition.java:142-163 | the tables are filled from a sound field, cell by cell |
| MiningScores.MiningScoresFromPosition.Invoke | bots/current_bot/mining/MiningScoresFromPosition.java:57-164 | the tables hold each cell's score from a sound cost field; the out-of-time flag is raised exactly when the count was already over the budget at the start, and not when the budget runs out during a layer; within budget the field is closed under relaxation; the layer exception leaves the flag alone |
| MiningScores.MiningScoresFromPosition.InvokeReportingBudget | bots/current_bot/mining/MiningScoresFromPosition.java:79-136 | the same tables, with the flag raised exactly when the count ends over the budget, and the field closed under relaxation when it does not |
| Mining.ScaleNotBelow | bots/current_bot/mining/MiningFunctions.java:155-158 | multiplying a non-negative score by a penalty of at least 1 never lowers it below a bound it cleared, so the unpenalised pre-check loses no candidate |
| Mining.NotBelowMonotone | bots/current_bot/mining/MiningFunctions.java:155-158 | a score not below the running best stays not below every later, lower best |
| Mining.Penalise | bots/current_bot/mining/MiningFunctions.java:251 | the committed cell's penalty is multiplied by SECOND_MINING_PENALTY, starting from 1.0; no other cell's changes; penalties stay at least 1 |
| Mining.ConsiderCell | bots/current_bot/mining/MiningFunctions.java:153-178 | one cell of the scan keeps the running best an acceptable cell with its penalised score, never raises the best score, and an acceptable cell is never below the new best |
| Mining.BelowThrough | bots/current_bot/mining/MiningFunctions.java:160-178 | a new best strictly below the old one is strictly below every score not below the old one, so "earlier cells score strictly worse" survives a change of best |
| Mining.ScanRow | bots/current_bot/mining/MiningFunctions.java:152-179 | one row of the scan extends "nothing scanned beats the best" to the whole row, and keeps the best the first of least score: every acceptable cell scanned before it scores strictly worse |
| Mining.BestClaim | bots/current_bot/mining/MiningFunctions.java:146-180 | the chosen cell is scored, legal, navigable and winnable against its holder, with a finite score; for non-negative scores and penalties of at least 1, no acceptable cell scores lower, every acceptable cell before it in row-major order scores strictly worse (ties go to the first), and with no choice every acceptable cell scores +Infinity |
| Mining.PropagateClaims | bots/current_bot/mining/MiningFunctions.java:121-136 | exactly last turn's final claims held by forced stayers are claimed again, by the same ships, and nobody is happy yet |
| Mining.ClaimFor | bots/current_bot/mining/MiningFunctions.java:144-194 | a happy ship is skipped; otherwise the ship claims its best acceptable cell, or nothing when every acceptable cell scores +Infinity; the claim tables stay linked and justified |
| Mining.ClaimStep | bots/current_bot/mining/MiningFunctions.java:184-193 | taking an acceptable cell keeps the claim invariant, including the displaced ship's stale entry |
| Mining.ClaimKeepsLinked | bots/current_bot/mining/MiningFunctions.java:184-193 | a claim, with the displaced ship made unhappy, keeps happy ships on their own claims |
| Mining.ClaimKeepsStaleBeaten | bots/current_bot/mining/MiningFunctions.java:160-193 | a displaced ship always lost its cell to a strictly nearer ship, counting one extra for a forced stayer |
| Mining.ClaimGrows | bots/current_bot/mining/MiningFunctions.java:184-193 | claims only grow; only the claiming ship's entry changes; without a rival nobody becomes unhappy |
| Mining.ClaimPass | bots/current_bot/mining/MiningFunctions.java:143-195 | a pass keeps the claim invariant and only adds claims; a pass that displaces nobody keeps every happy ship happy and every holder in place, and leaves every remaining ship that is not happy with only +Infinity scores on its acceptable cells |
| Mining.ClaimTurn | bots/current_bot/mining/MiningFunctions.java:145-194 | one ship's turn keeps the invariant; only that ship's last claim changes, and without a displacement nobody loses a claim; a happy ship changes nothing; an unhappy one ends happy or with only +Infinity scores on its acceptable cells |
| Mining.ClaimPhase | bots/current_bot/mining/MiningFunctions.java:120-196 | the claim phase ends with every propagated forced-stay claim still held, happy ships among the remaining ships, and every claim backed; when the passes converge (penalties at least 1), every remaining ship that is not happy scores +Infinity on every cell it may still claim (Stuck), so a further pass would change nothing |
| Mining.DeterminedTable | bots/current_bot/mining/MiningFunctions.java:229-234 | the navigator's determined table holds exactly the cells every surviving plan agrees on |
| Mining.GrowsTrans | bots/current_bot/mining/MiningFunctions.java:237-242 | "reservations only grow" composes |
| Mining.AddsTrans | bots/current_bot/mining/MiningFunctions.java:205-263 | over two growths of the reservations, something is new exactly when one of them added something |
| Geometry.EmptyOrInhabited | bots/current_bot/mining/MiningFunctions.java:232 | a set is empty or has a member |
| Mining.Reserve | bots/current_bot/mining/MiningFunctions.java:232-243 | every determined cell no enemy reaches by its turn ends reserved; new reservations are exactly such cells, for this ship; found tells whether one is new |
| Mining.FirstStepTable | bots/current_bot/mining/MiningFunctions.java:246 | firstMoveDetermined holds exactly when all surviving plans agree on the first step |
| Mining.ReserveFor | bots/current_bot/mining/MiningFunctions.java:227-244 | the reservations of a navigator: the eligible determined cells, only those, and the found flag as in the source |
| Mining.PlanFor | bots/current_bot/mining/MiningFunctions.java:225-248 | a step exists exactly when the claim is navigable and the first step is agreed or no reservation of the pass is new; an agreed first step is the step taken |
| Mining.PendingStep | bots/current_bot/mining/MiningFunctions.java:209 | after one ship of the pass, the later ships are still remaining or forced |
| Mining.Departed | bots/current_bot/mining/MiningFunctions.java:249-250 | a committed ship shrinks the remaining set |
| Mining.MiningFunctions.constructor | bots/current_bot/mining/MiningFunctions.java:23-24 | both static tables start empty |
| Mining.MiningFunctions.CommitShip | bots/current_bot/mining/MiningFunctions.java:209-262 | a ship without a claim changes nothing; on one of our structures its penalised score is recorded; a step is registered, penalises its cell and makes the claim final; no step changes nothing else |
| Mining.MiningFunctions.Visit | bots/current_bot/mining/MiningFunctions.java:209-262 | one ship of a pass only grows reservations, penalties and final claims; the found flag ends true exactly when it was true or a reservation is new; a ship without a move leaves the register unchanged, and a failure moves nothing |
| Mining.MiningFunctions.VisitListed | bots/current_bot/mining/MiningFunctions.java:209-262 | Visit for the ship at its index of the pass: the later ships are still to be visited and the register has evolved with only listed ships exempt |
| Mining.MiningFunctions.CommitPass | bots/current_bot/mining/MiningFunctions.java:209-263 | a pass only grows reservations and penalties; foundDetermined ends true exactly when it was or a reservation is new; the remaining set is unchanged unless a ship is committed, and then shrinks; each new final claim is the claim of a listed ship the pass committed |
| Mining.MiningFunctions.PassStep | bots/current_bot/mining/MiningFunctions.java:209-262 | the body of the pass for one ship keeps the pass invariant, and a failing ship leaves the pass's values as they were |
| Mining.MiningFunctions.SortedPass | bots/current_bot/mining/MiningFunctions.java:204-263 | the pass over the sorted remaining ships; foundDetermined is true exactly when the pass added a reservation; every new final claim belongs to a ship it committed |
| Mining.MiningFunctions.CommitPhase | bots/current_bot/mining/MiningFunctions.java:198-264 | passes repeat until the pass after one that added no reservation; when the phase finishes, the trail of reservations shows every pass but the last two adding one and the one before the last adding none; every final claim belongs to a ship that was remaining and is now committed |
| Mining.MiningFunctions.PhasePass | bots/current_bot/mining/MiningFunctions.java:200-263 | one pass keeps the phase invariant, and its found flag is true exactly when it added a reservation |
| Mining.MiningFunctions.TrailStep | bots/current_bot/mining/MiningFunctions.java:200-209 | one more pass extends the trail; the loop stops after a pass that follows a quiet one, or on failure, and then the trail is settled |
| Mining.MiningFunctions.OneRound | bots/current_bot/mining/MiningFunctions.java:112-267 | a round: the claim phase, then the commit phase; lastTurnClaims becomes the final claims; when both phases finish, each is held by a ship committed this round on a backed claim; a round that commits nobody leaves the remaining ships as they were |
| Mining.MiningFunctions.GetMiningCommands | bots/current_bot/mining/MiningFunctions.java:269-282 | rounds repeat while one commits a ship; when all rounds finish, each round but the last left fewer ships remaining and the last committed none; the register only evolves, and dropoff values are recorded only on our structures |
| Preferences.CompareInts | bots/current_bot/mining/PreferencesComparator.java:28 | Integer.compareTo: -1, 0 or 1 exactly as the first is smaller, equal or larger |
| Preferences.CompareCases | bots/current_bot/mining/PreferencesComparator.java:20-29 | two unclaimed ships compare equal; an unclaimed ship sorts after a claimed one (1 and -2); two claimed ships compare by their distances to their claims |
| Preferences.RankSeparates | bots/current_bot/mining/PreferencesComparator.java:24-28 | every claimed ship ranks below every unclaimed one, since a claim distance is at most width + height |
| Preferences.CompareByRank | bots/current_bot/mining/PreferencesComparator.java:20-29 | the comparator's sign is the sign of a rank difference, so it is a total preorder |
| Preferences.CompareIsConsistent | bots/current_bot/mining/PreferencesComparator.java:20-29 | compare(a, b) has the opposite sign of compare(b, a), and "not after" is transitive, as the Comparator contract asks |
| Preferences.LeastRanked | bots/current_bot/mining/MiningFunctions.java:205 | a ship of least rank among a non-empty set of ships |
| Preferences.AppendLeast | bots/current_bot/mining/MiningFunctions.java:205 | appending the least-ranked remaining ship keeps the list distinct and sorted, below everything still to come |
| Preferences.RankSortedIsSorted | bots/current_bot/mining/MiningFunctions.java:205 | a list sorted by rank is sorted by the comparator |
| Preferences.SortByPreference | bots/current_bot/mining/MiningFunctions.java:204-205 | the sorted ship list holds exactly the remaining ships, each once, in comparator order |
| SafeRoutes.EnemyAdjacent | bots/current_bot/returning/Returning.java:92-108 | the flag is set exactly when an enemy ship stands on the cell, or (with avoidAdjacent) on one of its four neighbours, ignoring ships on our structures |
| SafeRoutes.MinOf | bots/current_bot/returning/Returning.java:78 | Collections.min: a member of the list no larger than any member |
| SafeRoutes.LowestParentBound | bots/current_bot/returning/Returning.java:78 | the lowest parent halite (0 with no parents) is no more than any listed parent |
| SafeRoutes.VisitNeighbour | bots/current_bot/returning/Returning.java:83-113 | a neighbour already found gains the cell's route halite as a parent if it is in the next layer; a new one is marked found and enters the next layer with that single parent unless it is blocked; no other next-layer entry changes |
| SafeRoutes.VisitStep | bots/current_bot/returning/Returning.java:82-113 | one neighbour of the loop keeps the growth invariant, ends found, every neighbour visited so far that is in the next layer lists the cell's route halite, and only that neighbour's next-layer entry changes, started with or extended by the route halite |
| SafeRoutes.VisitCardinals | bots/current_bot/returning/Returning.java:82-114 | after the four neighbours, every neighbour of the cell is found, and each one in the next layer lists the cell's route halite among its parents |
| SafeRoutes.ExpandEntry | bots/current_bot/returning/Returning.java:74-115 | one layer entry is recorded at the current distance with its route halite, and the layer invariant extends to it |
| SafeRoutes.ExpandLayer | bots/current_bot/returning/Returning.java:74-115 | the whole layer is expanded; the next layer holds only newly found cells |
| SafeRoutes.Progress | bots/current_bot/returning/Returning.java:66-118 | the unfound cells plus the layer shrink with every non-empty layer, so the loop ends |
| SafeRoutes.Finished | bots/current_bot/returning/Returning.java:66-119 | the invariant at loop exit yields every property of the finished map |
| SafeRoutes.Round | bots/current_bot/returning/Returning.java:66-118 | one distance's round: the shipyard entry at its queue, then the layer expansion; the search invariant moves one distance out, found cells only grow, and a non-empty layer shrinks the unfound cells plus the layer |
| SafeRoutes.KeepRoutes | bots/current_bot/returning/Returning.java:74-115 | expanding one cell keeps every listed parent halite tied to the recorded neighbour it came from |
| SafeRoutes.AttainsNew | bots/current_bot/returning/Returning.java:76-79 | a new cell's route halite, its own plus the least listed parent, is attained by the neighbour that parent came from |
| SafeRoutes.AttainsKept | bots/current_bot/returning/Returning.java:74-115 | recording another cell keeps the attaining neighbour of an already recorded one |
| SafeRoutes.FromKept | bots/current_bot/returning/Returning.java:74-115 | recording a cell keeps each listed parent's origin, since only the shipyard is recorded twice |
| SafeRoutes.BuildRouteMap | bots/current_bot/returning/Returning.java:49-119 | both tables hold the same on-map cells; dropoff sources are at distance 0 with their own halite and the shipyard at the queue length; only open cells besides those are recorded, and every open neighbour of a recorded cell is recorded; neighbours differ by at most one step; each cell has a neighbour one step nearer home; route halite is at most a cell's halite plus any nearer neighbour's, and is attained: each recorded cell other than a source takes its own halite plus that of a recorded neighbour one step nearer home, except after the shipyard's rewritten entry |
| Returning.DropoffDistanceIsNearest | bots/current_bot/navigation/MapStatsKeeper.java:560-578 | nearestDropoffDistance is the distance to the cell nearestDropoff returns, which is our shipyard, one of our dropoffs or the planned site, and none of these is nearer |
| Returning.LexLessIrreflexive | bots/current_bot/returning/Returning.java:166-237 | no key precedes itself in dictionary order |
| Returning.LexLessTransitive | bots/current_bot/returning/Returning.java:166-237 | dictionary order is transitive |
| Returning.LexLessAsymmetric | bots/current_bot/returning/Returning.java:166-237 | two keys never precede each other |
| Returning.LexLessTotal | bots/current_bot/returning/Returning.java:31-41 | two keys of equal length are equal or one precedes the other |
| Returning.LexNotAfterTransitive | bots/current_bot/returning/Returning.java:31-41 | "not after" in dictionary order chains |
| Returning.ReturnerKey | bots/current_bot/returning/Returning.java:31-41 | the comparator's key has two entries: safe distance (1000 when absent), then nearest-dropoff distance |
| Returning.CompareReturnersByKey | bots/current_bot/returning/Returning.java:31-41 | compare is -1, 0 or 1 exactly as the first ship's key precedes, equals or follows the second's |
| Returning.CompareReturnersIsConsistent | bots/current_bot/returning/Returning.java:31-41 | swapping the ships negates the result, and "not after" is transitive, as the Comparator contract asks |
| Returning.FirstReturner | bots/current_bot/returning/Returning.java:368 | a ship of the set that no other ship of the set precedes |
| Returning.AppendFirst | bots/current_bot/returning/Returning.java:368 | appending a ship nobody left precedes keeps the list distinct and sorted |
| Returning.KeySortedIsSorted | bots/current_bot/returning/Returning.java:368 | a list sorted by key is sorted by the comparator |
| Returning.SortReturners | bots/current_bot/returning/Returning.java:358-368 | the sorted list holds exactly the returning ships still without a command, each once, in comparator order |
| Returning.Score | bots/current_bot/returning/Returning.java:142-158 | a score records the direction it was built for |
| Returning.ScoreTakesShorterRoute | bots/current_bot/returning/Returning.java:143-151 | the kept safe distance (1000 when absent) is the smaller of the safe one and the penalised unsafe one, ties to the safe one; its route halite comes from the map whose distance was kept |
| Returning.ScoreFields | bots/current_bot/returning/Returning.java:153-157 | the nearest-dropoff distance of the target (no candidate nearer), its halite, freedom from enemy ships (or our structure), and whether the step moves |
| Returning.Key | bots/current_bot/returning/Returning.java:166-237 | the mode's priority key: five entries when scared, six otherwise |
| Returning.LexLessCons | bots/current_bot/returning/Returning.java:166-237 | dictionary order compares the first entries, then the rest |
| Returning.LexLessTwo | bots/current_bot/returning/Returning.java:31-41 | dictionary order on two entries, spelt out |
| Returning.LexLessFive | bots/current_bot/returning/Returning.java:172-194 | dictionary order on five entries, spelt out |
| Returning.LexLessSix | bots/current_bot/returning/Returning.java:195-236 | dictionary order on six entries, spelt out |
| Returning.BetterThanIsKeyOrder | bots/current_bot/returning/Returning.java:166-237 | betterThan holds exactly when the mode's key of the first precedes that of the second |
| Returning.BetterThanIsStrictOrder | bots/current_bot/returning/Returning.java:166-237 | betterThan is irreflexive, asymmetric and transitive |
| Returning.NeitherBetter | bots/current_bot/returning/Returning.java:166-237 | two scores neither better than the other have the same key |
| Returning.BetterThanFirstConcern | bots/current_bot/returning/Returning.java:166-237 | not scared: freedom from enemies decides first; scared: dropoff distance; queueing: safe distance; otherwise: moving |
| Returning.BetterThanNotWorse | bots/current_bot/returning/Returning.java:166-237 | whatever beats b beats any c that does not beat b |
| Returning.BestIndex | bots/current_bot/returning/Returning.java:492-503 | the fold over a non-empty option list settles on an index of the list |
| Returning.BestIndexIsFirstBest | bots/current_bot/returning/Returning.java:492-503 | no option is better than the one chosen, and the one chosen is better than every earlier option: the first of the best |
| Returning.PickBest | bots/current_bot/returning/Returning.java:492-503 | no option exactly when the list is empty; otherwise the option at the fold's index |
| Returning.OpenDirectionsAreOpen | bots/current_bot/returning/Returning.java:466-486 | the candidate directions are exactly those whose target is unclaimed, with STILL first when the ship's own cell is unclaimed |
| Returning.Scored | bots/current_bot/returning/Returning.java:466-486 | one score per direction |
| Returning.ScoredAt | bots/current_bot/returning/Returning.java:466-486 | the i-th option scores the i-th direction |
| Returning.ScoredSnoc | bots/current_bot/returning/Returning.java:484 | scoring one more direction appends its score |
| Returning.QueueingByIndex | bots/current_bot/returning/Returning.java:470-482 | the ship queues exactly when one of the four cardinals leads to a claimed cell strictly nearer home by the safe map |
| Returning.ConsiderCardinal | bots/current_bot/returning/Returning.java:471-485 | an unclaimed target yields its score; a claimed one yields none, and shows queueing exactly when it is strictly nearer home by the safe map |
| Returning.QueuesAmongStep | bots/current_bot/returning/Returning.java:470-482 | the queueing flag after one more direction is the old flag or that direction's test |
| Returning.QueuesAmongExists | bots/current_bot/returning/Returning.java:470-482 | the left-to-right flag is set exactly when some direction queues |
| Returning.ScanCardinals | bots/current_bot/returning/Returning.java:470-486 | the loop appends the scores of the unclaimed targets, in order, and computes the queueing flag |
| Returning.ScanStep | bots/current_bot/returning/Returning.java:471-485 | one direction: its score is appended exactly when its target is unclaimed, and the queueing test holds exactly when its target is claimed and strictly nearer home by the safe map |
| Returning.CollectOptions | bots/current_bot/returning/Returning.java:464-486 | the options are the scores of the open directions in order, STILL first, and queueing is as specified |
| Returning.StayGain | bots/current_bot/returning/Returning.java:429-431 | the gain by staying is at least the halite mined, and zero on an empty cell |
| Returning.MoveCostMonotone | bots/current_bot/returning/Returning.java:429-431 | move cost does not drop as halite grows |
| Returning.MulMonotone | bots/current_bot/returning/Returning.java:148 | multiplying by a positive penalty keeps order |
| Returning.StayMiningStays | bots/current_bot/returning/Returning.java:438-443 | navigating to the ship's own cell means STILL, and succeeds exactly when that cell is unclaimed and visitable |
| Returning.ReturningActionAtDropoff | bots/current_bot/returning/Returning.java:395-426 | at distance 0 the ship stays (with a collision allowed when suiciding) or converts with enough halite, updating haliteNeeded; it fails exactly when not suiciding and on a structure, or off the planned site |
| Returning.ReturningActionFailsOnlyAtDropoff | bots/current_bot/returning/Returning.java:395-426 | an exception or a conversion happens only at distance 0 |
| Returning.ReturningActionStays | bots/current_bot/returning/Returning.java:429-447 | when staying is worth more than a turn after return and nobody rushes, a ship whose own cell is free and visitable stays |
| Returning.ReturningActionGoesIn | bots/current_bot/returning/Returning.java:449-460 | in the endgame a ship next to the nearest dropoff steps onto it, with collisions allowed there |
| Returning.ReturningActionChoosesBest | bots/current_bot/returning/Returning.java:462-511 | otherwise the ship takes an unclaimed option that no other open option beats (STILL when there is none), without a collision cell |
| Returning.BestScoredChoice | bots/current_bot/returning/Returning.java:492-510 | the option picked scores the direction at its own index, and no direction of the list scores better |
| Returning.CommitStep | bots/current_bot/returning/Returning.java:401-402 | registerMove, then registerPossibleCollision on the given cell |
| Returning.GetReturningMove | bots/current_bot/returning/Returning.java:385-512 | the register carries out the decided action: a move with its collision cell, a conversion, or the exception |
| Returning.Arrive | bots/current_bot/returning/Returning.java:395-426 | the register carries out the decided action at distance 0 |
| Returning.Approach | bots/current_bot/returning/Returning.java:429-511 | the register carries out the decided action off the dropoff |
| Returning.CarriedOut | bots/current_bot/returning/Returning.java:385-512 | a successful return leaves the ship without a pending move |
| Returning.Returners | bots/current_bot/returning/Returning.java:358-365 | exactly the remaining ships marked returning |
| Returning.GetReturningMoves | bots/current_bot/returning/Returning.java:343-383 | every returning ship still without a command gets one, unless an exception stops the loop; the plan comes back with the same destination |
| Returning.RouteReturners | bots/current_bot/returning/Returning.java:379-382 | the loop over the sorted returners commits each of them, or stops at the exception |
| Returning.ReturnOne | bots/current_bot/returning/Returning.java:380-381 | one returner is committed and the plan keeps its destination |
| Returning.FlattenMember | bots/current_bot/returning/Returning.java:241-249 | the flattened table holds exactly the entries of its first w columns |
| Returning.RunningMinIsLeast | bots/current_bot/returning/Returning.java:242-248 | the running minimum is the start or an entry, and below neither |
| Returning.TableMinIsLeast | bots/current_bot/returning/Returning.java:241-249 | arrayMin is an entry of the table that no entry is below |
| Returning.FlattenSnoc | bots/current_bot/returning/Returning.java:243 | one more row appends its first w entries |
| Returning.ArrayMin | bots/current_bot/returning/Returning.java:241-249 | the loops compute exactly the table minimum |
| Returning.ReturnStepDecides | bots/current_bot/returning/Returning.java:269-327 | it fails, with NoScores, exactly when the ship reaches the banking test without a score table (arrayMin on a missing entry); otherwise a guard that keeps its post changes nothing; the ship returns exactly when off our structures and rushing or already returning, or not returning and full or banking; it rushes exactly when it newly rushes or rushed and has not arrived; it becomes a guard of the nearest dropoff exactly when it arrives while rushing |
| Returning.ReturnStepIsLocal | bots/current_bot/returning/Returning.java:266-327 | a successful decision for one ship changes no other ship's entries |
| Returning.ReturnStepKeepsCoherent | bots/current_bot/returning/Returning.java:281-327 | a successful decision keeps rushing ships returning and guards apart from returning ships |
| Returning.TruncateToInt | bots/current_bot/returning/Returning.java:331 | the (int) cast truncates toward zero |
| Returning.RecordAppends | bots/current_bot/returning/Returning.java:329-335 | a ship not returning files nothing; a returning one appends its share to the list of its turn and leaves every other list as it was |
| Returning.FixAllKeepsCoherent | bots/current_bot/returning/Returning.java:266-339 | a whole pass that succeeds keeps coherence |
| Returning.FixAllIsLocal | bots/current_bot/returning/Returning.java:266-339 | when the pass succeeds, ships not in it keep their entries |
| Returning.FixAllFailsOnlyUnscored | bots/current_bot/returning/Returning.java:266-339 | the pass fails only with NoScores and only when some ship of it lacks a score table; with every table present it succeeds |
| Returning.FixAllStep | bots/current_bot/returning/Returning.java:266-336 | one more ship on a successful prefix: its decision, then the record of its expected return |
| Returning.FixAllStaysFailed | bots/current_bot/returning/Returning.java:266-336 | a failed prefix fails the whole pass with the same failure |
| Returning.DecideReturn | bots/current_bot/returning/Returning.java:269-327 | the branches compute exactly the specified decision, calling arrayMin only on a table that exists and is non-empty, and failing with NoScores otherwise |
| Returning.FixReturningShips | bots/current_bot/returning/Returning.java:251-341 | the routes avoid cells next to enemies; the result is exactly the specified pass over the ships: the sets and the halite-at-time table, or the NoScores failure of the first ship whose table is missing |
| Returning.DecideAll | bots/current_bot/returning/Returning.java:261-339 | the loop over the ships computes exactly the specified pass, stopping at the first failure |
| Returning.DecideShip | bots/current_bot/returning/Returning.java:266-336 | the body of the loop for one ship extends the specified pass by that ship |
| MapStats.NeighbourhoodOne | bots/current_bot/utils/CommonFunctions.java:26-38 | the radius-one neighbourhood lists the cell, then its West, South, North and East neighbours |
| MapStats.DiamondOne | bots/current_bot/utils/CommonFunctions.java:28-36 | the radius-one offsets are (0,0), (-1,0), (0,1), (0,-1), (1,0) |
| MapStats.NeighbourhoodOneCells | bots/current_bot/navigation/MapStatsKeeper.java:361-362 | the radius-one neighbourhood has five cells, starts with the centre, and otherwise holds exactly its cardinals, all on the map |
| MapStats.EnemyCount | bots/current_bot/navigation/MapStatsKeeper.java:66-68 | the enemy count of a list is at most its length |
| MapStats.EnemyCountPositive | bots/current_bot/navigation/MapStatsKeeper.java:66-68 | the count is positive exactly when some listed cell holds a ship of another player |
| MapStats.InspiredNeedsEnemies | bots/current_bot/navigation/MapStatsKeeper.java:60-75 | an inspired cell has an enemy ship within the inspiration radius, and no cell is inspired when the count asked for exceeds the cells of the radius |
| MapStats.CountEnemies | bots/current_bot/navigation/MapStatsKeeper.java:65-69 | the loop counts the enemy ships of the neighbourhood |
| MapStats.GetInspirationMap | bots/current_bot/navigation/MapStatsKeeper.java:60-75 | the table covers exactly the map, and a cell is inspired exactly when its count reaches INSPIRATION_SHIP_COUNT |
| MapStats.NearestIndex | bots/current_bot/navigation/MapStatsKeeper.java:107-115 | the scan settles on an index of the candidate list |
| MapStats.NearestIndexIsFirstMinimum | bots/current_bot/navigation/MapStatsKeeper.java:107-115 | the chosen candidate is no farther than any other, and strictly nearer than every earlier one: strict `<` keeps the shipyard or the earlier dropoff on ties |
| MapStats.NearestFor | bots/current_bot/navigation/MapStatsKeeper.java:105-118 | the inner loop returns the first nearest of shipyard then dropoffs, and its distance |
| MapStats.NearestCandidate | bots/current_bot/navigation/MapStatsKeeper.java:105-118 | the nearest dropoff is the shipyard or one of the player's dropoffs |
| MapStats.DropoffEntry | bots/current_bot/navigation/MapStatsKeeper.java:116-117 | every cell of the map has its nearest candidate and that candidate's distance in the tables |
| MapStats.FillCell | bots/current_bot/navigation/MapStatsKeeper.java:116-117 | storing one cell's answer extends the filled prefix of the tables by that cell |
| MapStats.FillAll | bots/current_bot/navigation/MapStatsKeeper.java:105-119 | a table filled through every row is the nearest-dropoff table |
| MapStats.DropoffTables | bots/current_bot/navigation/MapStatsKeeper.java:100-120 | the nested loops build the nearest-dropoff and distance tables of a player |
| MapStats.WithPlan | bots/current_bot/navigation/MapStatsKeeper.java:564-577 | the plan's destination replaces the table's dropoff only when strictly nearer; the distance is the smaller of the two |
| MapStats.NearestDropoffIsNearest | bots/current_bot/navigation/MapStatsKeeper.java:560-578 | the answer's distance is its true distance, it is a candidate or the planned site, and nothing of either is nearer |
| MapStats.LookupDistance | bots/current_bot/navigation/MapStatsKeeper.java:571-577 | the tabled distance, or the planned site's distance when strictly smaller; nothing when the table has no entry |
| MapStats.EnemyPositions | bots/current_bot/navigation/MapStatsKeeper.java:166-172 | the seeds of the search are exactly the cells of enemy ships |
| MapStats.VisitNeighbour | bots/current_bot/navigation/MapStatsKeeper.java:177-182 | one neighbour is found, at the current layer when it was new, keeping the layer invariant |
| MapStats.ExpandCell | bots/current_bot/navigation/MapStatsKeeper.java:176-183 | the neighbours of one cell of the layer are found |
| MapStats.ExpandLayer | bots/current_bot/navigation/MapStatsKeeper.java:174-184 | every neighbour of the layer is found, the new ones forming the next layer |
| MapStats.LayerFinished | bots/current_bot/navigation/MapStatsKeeper.java:183-185 | after a layer the search invariant holds one layer out, and the unfound cells plus the layer shrink |
| MapStats.SearchRound | bots/current_bot/navigation/MapStatsKeeper.java:175-185 | one round of the while loop keeps the search invariant one layer out, and the unfound cells plus the layer shrink |
| MapStats.PositiveLayerHasEnemy | bots/current_bot/navigation/MapStatsKeeper.java:160-187 | a positive entry implies some enemy ship exists |
| MapStats.NoEnemiesAllZero | bots/current_bot/navigation/MapStatsKeeper.java:160-187 | with no enemy ships every entry stays 0 |
| MapStats.SearchFinished | bots/current_bot/navigation/MapStatsKeeper.java:174-186 | when the layer runs out the table is the breadth-first layer table |
| MapStats.NearestEnemyTable | bots/current_bot/navigation/MapStatsKeeper.java:160-187 | the table covers the map, is 0 on enemy cells, non-negative, a reached cell's neighbours are reached at most one layer further, and each positive entry has a neighbour one layer nearer |
| MapStats.NoEnemiesAround | bots/current_bot/navigation/MapStatsKeeper.java:363-366 | the inner loop finds no enemy exactly when none stands on the cell or next to it |
| MapStats.IsSurrounded | bots/current_bot/navigation/MapStatsKeeper.java:360-370 | true exactly when every cardinal neighbour has an enemy ship within distance 1 of it |
| MapStats.CardinalOfNear | bots/current_bot/utils/CommonFunctions.java:26-38 | a radius-one neighbour other than the cell is a cardinal |
| MapStats.NearCardinals | bots/current_bot/utils/CommonFunctions.java:26-38 | every cardinal is in the radius-one neighbourhood |
| MapStats.AsInspirationTable | bots/current_bot/navigation/MapStatsKeeper.java:82-85 | a table that is right cell by cell is the player's inspiration table |
| MapStats.InspirationNext | bots/current_bot/navigation/MapStatsKeeper.java:83-85 | one more player's table extends the right prefix |
| MapStats.DropoffsNext | bots/current_bot/navigation/MapStatsKeeper.java:102-119 | one more player's dropoff tables extend the right prefix |
| MapStats.TableEntries | bots/current_bot/navigation/MapStatsKeeper.java:560-578 | each query's entry exists and means what it should |
| MapStats.MapStatsKeeper.constructor | bots/current_bot/navigation/MapStatsKeeper.java:41 | nothing seen, turnSeen is -1 |
| MapStats.MapStatsKeeper.UpdateMaps | bots/current_bot/navigation/MapStatsKeeper.java:77-126 | turnSeen becomes the game's turn and every integer table describes the game |
| MapStats.MapStatsKeeper.Refresh | bots/current_bot/navigation/MapStatsKeeper.java:485-487 | the tables are rebuilt exactly when the turn is later than turnSeen; otherwise nothing changes |
| MapStats.MapStatsKeeper.GetInspiration | bots/current_bot/navigation/MapStatsKeeper.java:485-492 | after the refresh, the entry is whether the cell is inspired for the owner |
| MapStats.MapStatsKeeper.NearestDropoff | bots/current_bot/navigation/MapStatsKeeper.java:560-567 | after the refresh, the table's nearest dropoff, replaced by the plan's site only when strictly nearer |
| MapStats.MapStatsKeeper.PlannedDropoff | bots/current_bot/navigation/MapStatsKeeper.java:564-566 | the comparison against the plan, on tables already fresh |
| MapStats.MapStatsKeeper.NearestDropoffDistance | bots/current_bot/navigation/MapStatsKeeper.java:569-578 | after the refresh, the smaller of the table's distance and the plan's |
| MapStats.MapStatsKeeper.DropoffDistanceEntry | bots/current_bot/navigation/MapStatsKeeper.java:571-578 | on fresh tables, the distance to the player's nearest candidate, or the planned site's distance when strictly smaller; no tables, no entry |
| MapStats.MapStatsKeeper.NearestEnemy | bots/current_bot/navigation/MapStatsKeeper.java:596-604 | after the refresh, the nearest-enemy entry of the cell |
| ExceptionalSquares.HaliteThreshold | bots/current_bot/ExceptionalSquareHandler.java:26 | the threshold is the proportion of the mean halite per cell, not negative for a non-negative proportion and sum |
| ExceptionalSquares.SideCellsMeaning | bots/current_bot/ExceptionalSquareHandler.java:55-60 | a layer cell counts for us exactly when our non-returning ship on it carries at least the cell's need; for them exactly when any other ship on it carries at least the need and less than ASSUMED_RETURNING_HALITE |
| ExceptionalSquares.LeastOf | bots/current_bot/ExceptionalSquareHandler.java:65 | the least offer, or the 10000 default when there is none |
| ExceptionalSquares.LeastExists | bots/current_bot/ExceptionalSquareHandler.java:65-67 | a non-empty set of offers has a least element |
| ExceptionalSquares.NextLayerMeaning | bots/current_bot/ExceptionalSquareHandler.java:61-73 | the next layer holds only new cells, each with an offer below 10000 that it keeps as the least of its offers, and every new cell offered less appears |
| ExceptionalSquares.EntryIsLeast | bots/current_bot/ExceptionalSquareHandler.java:64-67 | a table built by the offers holds at each cell its least offer |
| ExceptionalSquares.LeastIsEntered | bots/current_bot/ExceptionalSquareHandler.java:64-67 | every cell of the next layer is in the table the offers build |
| ExceptionalSquares.NextLayerUnique | bots/current_bot/ExceptionalSquareHandler.java:61-73 | a table that is achieved and covered is the next layer |
| ExceptionalSquares.AchievedSet | bots/current_bot/ExceptionalSquareHandler.java:65-66 | storing an offered value below the cap keeps every entry offered |
| ExceptionalSquares.CoveredLowered | bots/current_bot/ExceptionalSquareHandler.java:65-66 | lowering an entry keeps every offer covered |
| ExceptionalSquares.Offer | bots/current_bot/ExceptionalSquareHandler.java:63-67 | one neighbour's offer is recorded when lower than its entry (or than 10000); entries only fall |
| ExceptionalSquares.OfferFrom | bots/current_bot/ExceptionalSquareHandler.java:62-68 | every neighbour of one layer cell has its offer covered |
| ExceptionalSquares.Classify | bots/current_bot/ExceptionalSquareHandler.java:55-60 | one more layer cell joins the side its ship counts for |
| ExceptionalSquares.ExpandCell | bots/current_bot/ExceptionalSquareHandler.java:53-69 | one layer cell is classified and its offers recorded |
| ExceptionalSquares.ExpandAll | bots/current_bot/ExceptionalSquareHandler.java:53-69 | the loop over the layer finishes with every cell classified and every offer recorded |
| ExceptionalSquares.ExpandContest | bots/current_bot/ExceptionalSquareHandler.java:49-73 | the loop computes exactly the next layer and the two sides' cells |
| ExceptionalSquares.StepKeepsSound | bots/current_bot/ExceptionalSquareHandler.java:45-83 | a round keeps the fill sound, and without a verdict the totals grow by exactly this layer's counts |
| ExceptionalSquares.NextLayerFresh | bots/current_bot/ExceptionalSquareHandler.java:63 | next-layer cells are on the map and not yet found |
| ExceptionalSquares.StepShrinks | bots/current_bot/ExceptionalSquareHandler.java:45-48 | each round with a layer finds at least one new cell, so the loop ends |
| ExceptionalSquares.StepVerdict | bots/current_bot/ExceptionalSquareHandler.java:76-81 | a round's verdict is never both won and lost, agrees with the counts, and freezes the totals |
| ExceptionalSquares.FillOutcome | bots/current_bot/ExceptionalSquareHandler.java:45-83 | the fill ends won, lost or with no layer, with a consistent verdict |
| ExceptionalSquares.Round | bots/current_bot/ExceptionalSquareHandler.java:45-81 | one pass of the loop computes exactly one round of the fill |
| ExceptionalSquares.ContestSquare | bots/current_bot/ExceptionalSquareHandler.java:35-83 | the while loop computes exactly the specified fill from the exceptional cell |
| ExceptionalSquares.ShipsOn | bots/current_bot/ExceptionalSquareHandler.java:58 | exactly the ships standing on the counted cells |
| ExceptionalSquares.Contenders | bots/current_bot/ExceptionalSquareHandler.java:58 | only our ships that are not returning |
| ExceptionalSquares.CountedAreContenders | bots/current_bot/ExceptionalSquareHandler.java:58 | the ships counted for us are all contenders |
| ExceptionalSquares.CompareShipsByDistance | bots/current_bot/ExceptionalSquareHandler.java:88-93 | the comparator orders by distance to the cell alone: its halite tiebreak compares a ship with itself |
| ExceptionalSquares.Nearest | bots/current_bot/ExceptionalSquareHandler.java:88-93 | a ship of the set that no other is nearer the cell than |
| ExceptionalSquares.AppendNearest | bots/current_bot/ExceptionalSquareHandler.java:88-93 | appending a nearest remaining ship keeps the list distinct and nearest first |
| ExceptionalSquares.OrderByDistance | bots/current_bot/ExceptionalSquareHandler.java:88-93 | the sorted list holds exactly the ships, each once, nearest first by the comparator |
| ExceptionalSquares.AdvanceCases | bots/current_bot/ExceptionalSquareHandler.java:98-117 | a safe step toward the cell wins; any step chosen lands on an unoccupied cell and heads toward the cell; no step means the ship's cell is taken or unvisitable; staying away from the cell needs a free, visitable cell |
| ExceptionalSquares.AdvanceDirection | bots/current_bot/ExceptionalSquareHandler.java:98-112 | the navigation cascade yields exactly the specified direction: safe first, unsafe when within one, then staying put |
| ExceptionalSquares.AdvanceShip | bots/current_bot/ExceptionalSquareHandler.java:95-118 | a remaining ship with a direction gets that move registered and its target claimed; otherwise nothing changes |
| ExceptionalSquares.AdvanceListed | bots/current_bot/ExceptionalSquareHandler.java:95 | a ship no longer remaining is skipped |
| ExceptionalSquares.AdvanceAll | bots/current_bot/ExceptionalSquareHandler.java:94-119 | the loop only registers moves of the listed ships |
| ExceptionalSquares.ContestOutcome | bots/current_bot/ExceptionalSquareHandler.java:45-85 | a won fill has more of our ships than theirs, and all of ours are contenders |
| ExceptionalSquares.ContestCell | bots/current_bot/ExceptionalSquareHandler.java:30-124 | a cell that is not exceptional changes nothing; an exceptional one runs the specified fill, and only a won fill moves ships, only contenders |
| ExceptionalSquares.ContestRow | bots/current_bot/ExceptionalSquareHandler.java:29-125 | one row of cells moves only contenders |
| ExceptionalSquares.GetExceptionalSquaresMoves | bots/current_bot/ExceptionalSquareHandler.java:25-127 | the handler moves only our non-returning ships, keeping the register valid |
| Guarding.ChaseFoldMeaning | bots/current_bot/Guarding.java:43-53 | the chase picks an enemy cell within two of the dropoff that an unoccupied step heads for, at a distance below 10 that no other reachable enemy beats; it picks none exactly when every reachable enemy is 10 or more away |
| Guarding.ChaseKeepsEarlier | bots/current_bot/Guarding.java:48 | a later enemy at no smaller distance leaves the choice as it was: strict `<` keeps the earlier |
| Guarding.ChaseFoldNext | bots/current_bot/Guarding.java:45-53 | one loop iteration extends the fold by one cell |
| Guarding.ChaseOver | bots/current_bot/Guarding.java:45-53 | the chase loop over the listed cells computes exactly the chase fold of those cells |
| Guarding.ChaseVisit | bots/current_bot/Guarding.java:46-52 | one cell of the chase loop: an enemy cell that can be stepped toward replaces the choice only if strictly nearer the guard |
| Guarding.ChaseScan | bots/current_bot/Guarding.java:43-53 | the loop computes the chase fold over the radius-two neighbourhood of the dropoff |
| Guarding.HoldFoldMeaning | bots/current_bot/Guarding.java:63-76 | the wait picks a reachable cell next to the dropoff (never the dropoff) at the least distance; it picks none exactly when every candidate lies beyond 10, or at 10 with a ship on it |
| Guarding.HoldFoldPrefersFree | bots/current_bot/Guarding.java:70-71 | the chosen cell is free of ships whenever some candidate at the chosen distance is |
| Guarding.HoldPrefersLaterFree | bots/current_bot/Guarding.java:71 | a later ship-free candidate at no greater distance takes over the choice |
| Guarding.HoldFoldNext | bots/current_bot/Guarding.java:65-76 | one loop iteration extends the fold by one cell |
| Guarding.HoldOver | bots/current_bot/Guarding.java:65-76 | the wait loop over the listed cells computes exactly the wait fold of those cells |
| Guarding.HoldVisit | bots/current_bot/Guarding.java:66-75 | one cell of the wait loop: the dropoff is skipped, and a reachable cell replaces the choice if it is nearer, or as near and free of ships |
| Guarding.HoldScan | bots/current_bot/Guarding.java:63-76 | the loop computes the wait fold over the radius-one neighbourhood of the dropoff |
| Guarding.EntryReachesDropoff | bots/current_bot/Guarding.java:35 | on or next to the dropoff, the first unsafe move lands on the dropoff |
| Guarding.EnterPlan | bots/current_bot/Guarding.java:30-92 | the last-turn entry happens exactly on the last turn for a guard within one of the dropoff; otherwise entry is the fallback next to it; both take the first unsafe move |
| Guarding.ChasePlan | bots/current_bot/Guarding.java:42-59 | a chase heads for a nearest reachable enemy within two of the dropoff, onto an unoccupied cell, and happens (when not entering on the last turn) exactly when some reachable enemy is nearer than 10 |
| Guarding.WaitPlan | bots/current_bot/Guarding.java:61-82 | a wait happens only when no enemy is chaseable, steps onto an unoccupied cell and heads for a best candidate next to the dropoff |
| Guarding.StuckPlan | bots/current_bot/Guarding.java:94 | a guard finds no move exactly when it is not entering, not next to the dropoff, and neither fold picks a cell |
| Guarding.ComputePlan | bots/current_bot/Guarding.java:28-94 | the branches compute exactly the specified plan |
| Guarding.GuardTurn | bots/current_bot/Guarding.java:28-94 | the plan is carried out: a move registered for the guard, a collision allowed at the dropoff on entry; a stuck guard changes nothing |
| Guarding.Guards | bots/current_bot/Guarding.java:19-25 | the remaining ships whose id is a guard's |
| Guarding.FindGuard | bots/current_bot/Guarding.java:20 | a remaining ship with the id, or none exactly when no remaining ship has it |
| Guarding.GuardOne | bots/current_bot/Guarding.java:19-94 | a guard id without a remaining ship changes nothing; the fallback entry ends the loop, with a collision allowed at the dropoff |
| Guarding.GetGuardingMoves | bots/current_bot/Guarding.java:18-96 | only guards are moved, and the pass ends at the first fallback entry |
| Guarding.GuardsShrink | bots/current_bot/Guarding.java:20 | fewer remaining ships give fewer remaining guards |
| BotConfig.ChooseTableCases | bots/current_bot/utils/BotConstants.java:68-96 | a two-player table exactly for two players; widths 32, 40, 48 and 56 get their own two-player table and every other width the 64 one; otherwise widths below 44 get the small table, 48 and 56 their own, every other width the large one |
| BotConfig.Named | bots/current_bot/utils/BotConstantsArgs.java:49-145 | a case label matches exactly its own key's text |
| BotConfig.ParseKeyRoundTrip | bots/current_bot/utils/BotConstantsArgs.java:49-145 | every key's text selects that key |
| BotConfig.ParseKeyExact | bots/current_bot/utils/BotConstantsArgs.java:49-145 | a text is accepted only when it is exactly some key's text |
| BotConfig.ParseValue | bots/current_bot/utils/BotConstantsArgs.java:49-142 | the nine integer keys go through Integer.parseInt, the rest through Double.parseDouble; a failed parse gives nothing |
| BotConfig.Overrides | bots/current_bot/utils/BotConstantsArgs.java:46-147 | one override per argument key, every key a known one |
| BotConfig.BuildOverrides | bots/current_bot/utils/BotConstantsArgs.java:46-147 | the constructor succeeds exactly when every key is known and every value parses, and then stores exactly the parsed overrides; a failure is the rejection of some argument |
| BotConfig.SameOverrides | bots/current_bot/utils/BotConstantsArgs.java:46-147 | a map with the argument keys and the parsed values is the override map |
| BotConfig.UnsetThrows | bots/current_bot/utils/BotConstantsArgs.java:150-264 | before setSize every getter throws; over an unset base exactly the getters that consult the base throw |
| BotConfig.OverrideWins | bots/current_bot/utils/BotConstantsArgs.java:150-264 | an overridden, redefined getter over a set base returns the override |
| BotConfig.AbsentFallsBack | bots/current_bot/utils/BotConstantsArgs.java:150-264 | a redefined getter without an override returns the base's value |
| BotConfig.ExploitDelegates | bots/current_bot/utils/BotConstantsArgs.java:162-165 | EXPLOIT_THE_WEAK always returns the base's value |
| BotConfig.OrphanKeysIgnored | bots/current_bot/utils/BotConstantsArgs.java:62-64 | the RETURN_TERRITORY_DROPOFF and DROPOFF_SQUARE_BONUS overrides are stored but change no getter |
| BotConfig.InheritedGetterIgnoresBase | bots/current_bot/utils/BotConstantsArgs.java:150-264 | a getter the override class does not redefine returns BotConstants' own body, whatever table is underneath |
| BotConfig.OverrideResetsNearbyEnemyBonus | bots/current_bot/utils/BotConstants2P.java:7 | on a two-player table NEARBY_ENEMY_BONUS is 0.0, and after any override, of RETURN_RATIO say, it is 0.1 |
| BotConfig.DelegatingChangesOnlyOverridden | bots/current_bot/utils/BotConstantsArgs.java:150-264 | with delegation an override layer over a set base changes exactly the getters of its own keys |
| BotConfig.DelegatingAgreesWhereRedefined | bots/current_bot/utils/BotConstantsArgs.java:150-165 | the delegating getter agrees with the source's on every redefined getter and on EXPLOIT_THE_WEAK |
| BotConfig.ConstantsHolder.constructor | bots/current_bot/utils/BotConstants.java:62 | no configuration before setSize |
| BotConfig.ConstantsHolder.SetSize | bots/current_bot/utils/BotConstants.java:68-96 | the configuration becomes the table for the player count and width |
| BotConfig.ConstantsHolder.SetConfigOverrides | bots/current_bot/utils/BotConstants.java:98-100 | no overrides leave the configuration as it was; otherwise it wraps the old one with the parsed overrides, or stays unchanged when the constructor throws |

## Left out

- Reading the game from standard input, writing commands, and logging are left out: they are I/O, and the log calls do not affect any decision.
- `java.util.Random` and the random tiebreaker are a nondeterministic choice of one argument. The contracts hold for every choice.
- Java `double` arithmetic is modelled with exact Dafny `real`s, with no rounding. The `(int)` casts are written out as truncation toward zero.
- Java `int` overflow is not modelled. Every value involved is bounded by map sizes and halite amounts far below 2^31.
- `canVisit`, `canVisitFuture` and `happyWithCollision` are uninterpreted predicates carried by the game value. The floating-point safety model behind them is left out:
  - collision thresholds (MapStatsKeeper.java:396-451, 580-594);
  - territory (453-483);
  - aggression learning and collision forensics (189-358);
  - the enemy collision map (372-394);
  - future-threshold smoothing (502-539);
  - the nearby-halite map (128-158).
- The map is square wherever a property needs it. The functions keep the two axes exactly as the source pairs them.
- The game constants (MAX_HALITE, EXTRACT_RATIO, MOVE_COST_RATIO, INSPIRATION_RADIUS, INSPIRATION_SHIP_COUNT, MAX_TURNS, DROPOFF_COST and the rest) are positive parameters. hlt/Constants.java is not part of this model.
- The tuning numbers a module reads are fields of that module's parameters (`Tuning`, `ReturnTuning`, `Context`, `ReturnContext`). The per-map tables (BotConstants2P.java and the other table classes) are not copied: `BotConfig.Tables` takes their values as a given function.
- The static tables of one turn are given as values wherever another module reads them: the nearest-enemy table, the mining scores and the dropoff mining values. The reason is that `updateMaps` runs before any of these modules in a turn, so the lazy refresh never fires in the middle of one. MapStatsKeeper's refresh itself is modelled in `MapStats.MapStatsKeeper`.
- `getMiningScore`'s profit simulation (MiningScoresFromPosition.java:179-237) is double arithmetic. Only its structure and no-profit guards are modelled; the other scores are given reals.
- getMiningScores and getReturnTurns (MiningFunctions.java:30-109) are left out: they compute the score tables with a clock-based iteration budget and double arithmetic. The tables are inputs of the auction (`Mining.Context`), and the budget is a parameter of `MiningScores.MiningScoresFromPosition`.
- Mining.MiningFunctions.GetMiningCommands: the dropoff fill after the rounds (MiningFunctions.java:283-300) is left out. It is a minimum over the given double tables. The model states only that every recorded dropoff value belongs to one of our structures.
- The rolling ship-value average (MiningFunctions.java:302-328) is left out: it is a double-valued statistic for the spawn decider.
- Java `assert` statements: getForcedStills' assert that nothing is claimed yet, and MoveRegistry.MoveRegister.RegisterDropoff's assert that the ship is still remaining, become preconditions. Returning.Arrive, which calls registerDropoff, tests that assertion first and returns `Err(NotRemaining)` when it would fail.
- SafeRoutes.BuildRouteMap: the shipyard can be reached as an ordinary cell before its queue and is then recorded again at its queue with only its own halite (Returning.java:69-80). A cell that took its route halite from the earlier entry is only said to neighbour the shipyard, because the value it added has been overwritten.
- Returning.FixReturningShips: on `Err(NoScores)` the model returns no sets. The in-place updates Java has already made for the earlier ships before the exception are not returned.
- Guarding.GetGuardingMoves visits the guard ids in some order. The source takes that order from a `HashMap`, so the model allows any order. The same holds for the key order of every other Java map and set the source iterates.
- BotConfig.BuildOverrides: when several arguments are bad, the model reports the failure of one of them, not necessarily the one Java's hash order would meet first.
- Numbers are parsed by given functions (`Parsers`) that stand for `Integer.parseInt` and `Double.parseDouble`.
- The getters `determinedMoves`, `getScored`, `getRemainingShips`, `getOccupiedPositions` and `BotConstants.get` are reads of the modelled fields, and have no member of their own.
- ExceptionalSquareHandler's `turns` counter is only logged, so it is left out. The lists `ourShips` and `theirShips` are sets of counted cells. Each cell is counted in one layer only, so the sizes agree.
- Ship collections the source keeps in lists but uses only through `contains` and `remove` are sets of distinct ships.
- Hunting.java, the dropoff planner, the spawn decider and Bot.java's sequencing are not part of this model. They are floating-point policy or orchestration.
- MoveRegistry.MoveRegister.FixCommands: the repair loop has no decreasing measure in the source, so the model runs it under a `fuel` bound. Its contract says what holds when it converges and what holds when the fuel runs out. It does not claim the loop terminates.
- MoveRegistry.MoveRegister.GetCommands: inherits the `fuel` bound of FixCommands.
- Mining.ClaimPhase: the claim loop runs under a `fuel` bound, because the model does not prove that it ends. A displacement needs a strictly nearer ship, counting one extra for a forced stayer, so only forced stayers left among the remaining ships could keep the passes going. The bot's turn (Bot.java, not part of this model) commits every forced stayer with STILL before the auction runs. The contract holds whether or not the bound is reached, and states the stable auction when the passes converge.
- Mining.MiningFunctions.CommitPhase: the commit loop runs under a `fuel` bound, with the same reading. When the bound is reached first, the contract says nothing about the last passes.
- MoveRegistry.MoveRegister.PruneMustMove: promises only that the register stays valid and evolves as allowed. What one prune-and-check does to the other entries is not stated.
- MoveRegistry.MoveRegister.PruneMustMoves: likewise promises only validity and allowed evolution.
- MoveRegistry.MoveRegister.PruneShouldMoves: promises validity and allowed evolution. The per-watcher effect is stated by PruneWatcher.
- MoveRegistry.MoveRegister.RedirectTargetShip: promises validity, allowed evolution, that the target ship's cell becomes a must-move cell, and the collision-tolerant fallback. Which options that cell gets is stated by ExitsFor, not by this member.
- MoveRegistry.MoveRegister.RegisterMove: the cascade it starts is covered only by the same validity and evolution facts. The source's cancel filter can drop the command just appended, so the contract does not promise that the new command is in the list.
- Returning.GetReturningMoves: the endgame and suicide thresholds compare a count with a real-valued product, exactly as written. The rest of the per-ship decision is stated by ReturningAction.
- Guarding.GetGuardingMoves: promises that only guards move and the register stays valid. The early end after the first fallback entry is stated by GuardOne.
- ExceptionalSquares.GetExceptionalSquaresMoves, ExceptionalSquares.ContestRow and ExceptionalSquares.AdvanceAll: promise that only contenders move and the register stays valid. Which cell each ship heads for is stated by ContestCell and AdvanceCases.

## Findings

| source | as written | input that shows it | evidently intended | confidence | as-written member | corrected member |
|---|---|---|---|---|---|---|
| bots/current_bot/utils/BotConstantsArgs.java:150-264 | BotConstantsArgs extends BotConstants, and only the getters of its own keys (and EXPLOIT_THE_WEAK) read `baseConfig`. Every other getter returns BotConstants' own body, whatever table is wrapped. | A two-player game on a 32-wide map with the single override RETURN_RATIO=10: NEARBY_ENEMY_BONUS goes from 0.0 (BotConstants2P.java:7) to 0.1 (BotConstants.java:26). | An override layer changes only the getters of the keys it was given; every other getter reads the wrapped table. | medium; not executed | BotConfig.OverrideResetsNearbyEnemyBonus | BotConfig.DelegatingChangesOnlyOverridden |
| bots/current_bot/mining/MiningScoresFromPosition.java:79-136 | `outOfTime` is raised only by the check at the top of the loop. When the budget runs out inside a layer, the break at line 136 ends the search without raising it. | A ship that enters invoke with shipIterations ≤ iterationsAllowed and whose first layer takes it past the budget: the search stops early, and `moveRegister.outOfTime` keeps its old value. | Any search cut short by the budget reports it through `outOfTime`. | low; not executed | MiningScores.MiningScoresFromPosition.Invoke | MiningScores.MiningScoresFromPosition.InvokeReportingBudget |
