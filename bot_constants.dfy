/** BotConstants and BotConstantsArgs (bots/current_bot/utils/BotConstants.java,
    bots/current_bot/utils/BotConstantsArgs.java): which tuning table a game
    uses, and how command-line overrides are laid over it. The numbers in
    the tables are not part of this model: each table's getters and
    BotConstants' own getter bodies are given as functions, and so are the
    parsers of an override's text. */
module BotConfig {
  import opened Wrappers

  // ---------------------------------------------------------------------
  // The table choice (BotConstants.setSize, lines 68-96)

  /** The concrete tuning tables setSize can install. */
  datatype Table =
    | Table2_32 | Table2_40 | Table2_48 | Table2_56 | Table2_64
    | Table4PSmall | Table4_48 | Table4_56 | Table4PLarge

  predicate TwoPlayerTable(t: Table)
  {
    t.Table2_32? || t.Table2_40? || t.Table2_48? || t.Table2_56? || t.Table2_64?
  }

  /** The table for a player count and a map width. */
  function ChooseTable(players: int, width: int): Table
  {
    if players == 2 then
      if width == 32 then Table2_32
      else if width == 40 then Table2_40
      else if width == 48 then Table2_48
      else if width == 56 then Table2_56
      else Table2_64
    else
      if width < 44 then Table4PSmall
      else if width == 48 then Table4_48
      else if width == 56 then Table4_56
      else Table4PLarge
  }

  /** A two-player table is chosen exactly for two players; the four
      two-player widths with a table of their own get it and every other
      width the 64 table; with more players, widths below 44 get the small
      table, 48 and 56 their own, and every other width the large one. */
  lemma ChooseTableCases(players: int, width: int)
    ensures TwoPlayerTable(ChooseTable(players, width)) <==> players == 2
    ensures players == 2 ==>
      && (ChooseTable(players, width) == Table2_64 <==> width !in {32, 40, 48, 56})
      && (width == 32 <==> ChooseTable(players, width) == Table2_32)
      && (width == 40 <==> ChooseTable(players, width) == Table2_40)
      && (width == 48 <==> ChooseTable(players, width) == Table2_48)
      && (width == 56 <==> ChooseTable(players, width) == Table2_56)
    ensures players != 2 ==>
      && (width < 44 <==> ChooseTable(players, width) == Table4PSmall)
      && (width == 48 <==> ChooseTable(players, width) == Table4_48)
      && (width == 56 <==> ChooseTable(players, width) == Table4_56)
      && (ChooseTable(players, width) == Table4PLarge <==> width >= 44 && width != 48 && width != 56)
  {
  }

  // ---------------------------------------------------------------------
  // The override keys (BotConstantsArgs, lines 46-147)

  /** The keys the constructor's switch accepts. */
  datatype Key =
    | DropoffDistancePenalty
    | HaliteToReturn
    | AssumedReturningProportion
    | ReturnSpeed
    | ReturnTerritoryDropoff
    | HaliteToAlwaysReturn
    | IterationsAllowed
    | InspirationTurnDropoff
    | MinInspirationBonus
    | SpawnInspirationBonus
    | CarriedProportion
    | MaxSpawnTurns
    | TotalHaliteCollection
    | TerritoryDropoff
    | TerritoryStructureWeight
    | BaseTerritoryWeight
    | ReturnRatio
    | AggroPlayers
    | ShipsPerDropoff
    | FirstDropoffShips
    | SecondDropoffShips
    | DropoffHalite
    | DropoffSquareBonus
    | DropoffHaliteDropoff
    | DropoffExtraDistBonus
    | DropoffTurns
    | DropoffShipMaxDistance
    | DropoffTerritoryShips
    | MinDropoffDistance
    | DropoffMinNearbyShips
    | DropoffHaliteShipTurn

  function KeyName(k: Key): string
  {
    match k
    case DropoffDistancePenalty => "DROPOFF_DISTANCE_PENALTY"
    case HaliteToReturn => "HALITE_TO_RETURN"
    case AssumedReturningProportion => "ASSUMED_RETURNING_PROPORTION"
    case ReturnSpeed => "RETURN_SPEED"
    case ReturnTerritoryDropoff => "RETURN_TERRITORY_DROPOFF"
    case HaliteToAlwaysReturn => "HALITE_TO_ALWAYS_RETURN"
    case IterationsAllowed => "ITERATIONS_ALLOWED"
    case InspirationTurnDropoff => "INSPIRATION_TURN_DROPOFF"
    case MinInspirationBonus => "MIN_INSPIRATION_BONUS"
    case SpawnInspirationBonus => "SPAWN_INSPIRATION_BONUS"
    case CarriedProportion => "CARRIED_PROPORTION"
    case MaxSpawnTurns => "MAX_SPAWN_TURNS"
    case TotalHaliteCollection => "TOTAL_HALITE_COLLECTION"
    case TerritoryDropoff => "TERRITORY_DROPOFF"
    case TerritoryStructureWeight => "TERRITORY_STRUCTURE_WEIGHT"
    case BaseTerritoryWeight => "BASE_TERRITORY_WEIGHT"
    case ReturnRatio => "RETURN_RATIO"
    case AggroPlayers => "AGGRO_PLAYERS"
    case ShipsPerDropoff => "SHIPS_PER_DROPOFF"
    case FirstDropoffShips => "FIRST_DROPOFF_SHIPS"
    case SecondDropoffShips => "SECOND_DROPOFF_SHIPS"
    case DropoffHalite => "DROPOFF_HALITE"
    case DropoffSquareBonus => "DROPOFF_SQUARE_BONUS"
    case DropoffHaliteDropoff => "DROPOFF_HALITE_DROPOFF"
    case DropoffExtraDistBonus => "DROPOFF_EXTRA_DIST_BONUS"
    case DropoffTurns => "DROPOFF_TURNS"
    case DropoffShipMaxDistance => "DROPOFF_SHIP_MAX_DISTANCE"
    case DropoffTerritoryShips => "DROPOFF_TERRITORY_SHIPS"
    case MinDropoffDistance => "MIN_DROPOFF_DISTANCE"
    case DropoffMinNearbyShips => "DROPOFF_MIN_NEARBY_SHIPS"
    case DropoffHaliteShipTurn => "DROPOFF_HALITE_SHIP_TURN"
  }

  /** The key `k` when `s` is its name. */
  function Named(s: string, k: Key): (r: Option<Key>)
    ensures r.Some? <==> s == KeyName(k)
    ensures r.Some? ==> r.value == k
  {
    if s == KeyName(k) then Some(k) else None
  }

  /** The constructor's switch on the key text (BotConstantsArgs.java
      lines 50-145): a key exactly when the text is one of the 31 case
      labels, and no key otherwise. The text's length and one of its
      characters pick the only label it can equal, and the whole text is
      then compared with that label (Named), so each label is still
      matched by full string equality. */
  function ParseKey(s: string): Option<Key>
  {
    if |s| == 12 then
      (if s[11] == 'D' then
        Named(s, ReturnSpeed)
       else
        Named(s, ReturnRatio))
    else if |s| == 13 then
      (if s[11] == 'N' then
        Named(s, DropoffTurns)
       else
        Named(s, AggroPlayers))
    else if |s| == 14 then
      Named(s, DropoffHalite)
    else if |s| == 15 then
      Named(s, MaxSpawnTurns)
    else if |s| == 16 then
      Named(s, HaliteToReturn)
    else if |s| == 17 then
      (if s[8] == 'R' then
        Named(s, ShipsPerDropoff)
       else
        Named(s, TerritoryDropoff))
    else if |s| == 18 then
      (if s[17] == 'D' then
        Named(s, IterationsAllowed)
       else
        Named(s, CarriedProportion))
    else if |s| == 19 then
      Named(s, FirstDropoffShips)
    else if |s| == 20 then
      (if s[18] == 'C' then
        Named(s, MinDropoffDistance)
       else if s[18] == 'P' then
        Named(s, SecondDropoffShips)
       else
        Named(s, DropoffSquareBonus))
    else if |s| == 21 then
      (if s[20] == 'S' then
        Named(s, MinInspirationBonus)
       else
        Named(s, BaseTerritoryWeight))
    else if |s| == 22 then
      Named(s, DropoffHaliteDropoff)
    else if |s| == 23 then
      (if s[21] == 'O' then
        Named(s, TotalHaliteCollection)
       else if s[21] == 'P' then
        Named(s, DropoffTerritoryShips)
       else if s[21] == 'R' then
        Named(s, HaliteToAlwaysReturn)
       else
        Named(s, SpawnInspirationBonus))
    else if |s| == 24 then
      (if s[15] == 'E' then
        Named(s, DropoffDistancePenalty)
       else if s[15] == 'I' then
        Named(s, DropoffExtraDistBonus)
       else if s[15] == 'N' then
        Named(s, InspirationTurnDropoff)
       else if s[15] == 'R' then
        Named(s, DropoffMinNearbyShips)
       else if s[15] == 'S' then
        Named(s, DropoffHaliteShipTurn)
       else
        Named(s, ReturnTerritoryDropoff))
    else if |s| == 25 then
      Named(s, DropoffShipMaxDistance)
    else if |s| == 26 then
      Named(s, TerritoryStructureWeight)
    else if |s| == 28 then
      Named(s, AssumedReturningProportion)
    else None
  }

  /** The switch recognises each key by its own name. */
  lemma ParseKeyRoundTrip(k: Key)
    ensures ParseKey(KeyName(k)) == Some(k)
  {
    if k in {DropoffDistancePenalty, HaliteToReturn, AssumedReturningProportion, ReturnSpeed, DropoffHaliteShipTurn} {
      RoundTrip0(k);
    } else if k in {ReturnTerritoryDropoff, HaliteToAlwaysReturn, IterationsAllowed, InspirationTurnDropoff} {
      RoundTrip1(k);
    } else if k in {MinInspirationBonus, SpawnInspirationBonus, CarriedProportion, MaxSpawnTurns} {
      RoundTrip2(k);
    } else if k in {TotalHaliteCollection, TerritoryDropoff, TerritoryStructureWeight, BaseTerritoryWeight} {
      RoundTrip3(k);
    } else if k in {ReturnRatio, AggroPlayers, ShipsPerDropoff, FirstDropoffShips} {
      RoundTrip4(k);
    } else if k in {SecondDropoffShips, DropoffHalite, DropoffSquareBonus, DropoffHaliteDropoff} {
      RoundTrip5(k);
    } else if k in {DropoffExtraDistBonus, DropoffTurns, DropoffShipMaxDistance, DropoffTerritoryShips} {
      RoundTrip6(k);
    } else {
      RoundTrip7(k);
    }
  }

  lemma RoundTrip0(k: Key)
    requires k in {DropoffDistancePenalty, HaliteToReturn, AssumedReturningProportion, ReturnSpeed, DropoffHaliteShipTurn}
    ensures ParseKey(KeyName(k)) == Some(k)
  {
    match k
      case DropoffDistancePenalty =>
      case HaliteToReturn =>
      case AssumedReturningProportion =>
      case ReturnSpeed =>
      case DropoffHaliteShipTurn =>
  }

  lemma RoundTrip1(k: Key)
    requires k in {ReturnTerritoryDropoff, HaliteToAlwaysReturn, IterationsAllowed, InspirationTurnDropoff}
    ensures ParseKey(KeyName(k)) == Some(k)
  {
    match k
      case ReturnTerritoryDropoff =>
      case HaliteToAlwaysReturn =>
      case IterationsAllowed =>
      case InspirationTurnDropoff =>
  }

  lemma RoundTrip2(k: Key)
    requires k in {MinInspirationBonus, SpawnInspirationBonus, CarriedProportion, MaxSpawnTurns}
    ensures ParseKey(KeyName(k)) == Some(k)
  {
    match k
      case MinInspirationBonus =>
      case SpawnInspirationBonus =>
      case CarriedProportion =>
      case MaxSpawnTurns =>
  }

  lemma RoundTrip3(k: Key)
    requires k in {TotalHaliteCollection, TerritoryDropoff, TerritoryStructureWeight, BaseTerritoryWeight}
    ensures ParseKey(KeyName(k)) == Some(k)
  {
    match k
      case TotalHaliteCollection =>
      case TerritoryDropoff =>
      case TerritoryStructureWeight =>
      case BaseTerritoryWeight =>
  }

  lemma RoundTrip4(k: Key)
    requires k in {ReturnRatio, AggroPlayers, ShipsPerDropoff, FirstDropoffShips}
    ensures ParseKey(KeyName(k)) == Some(k)
  {
    match k
      case ReturnRatio =>
      case AggroPlayers =>
      case ShipsPerDropoff =>
      case FirstDropoffShips =>
  }

  lemma RoundTrip5(k: Key)
    requires k in {SecondDropoffShips, DropoffHalite, DropoffSquareBonus, DropoffHaliteDropoff}
    ensures ParseKey(KeyName(k)) == Some(k)
  {
    match k
      case SecondDropoffShips =>
      case DropoffHalite =>
      case DropoffSquareBonus =>
      case DropoffHaliteDropoff =>
  }

  lemma RoundTrip6(k: Key)
    requires k in {DropoffExtraDistBonus, DropoffTurns, DropoffShipMaxDistance, DropoffTerritoryShips}
    ensures ParseKey(KeyName(k)) == Some(k)
  {
    match k
      case DropoffExtraDistBonus =>
      case DropoffTurns =>
      case DropoffShipMaxDistance =>
      case DropoffTerritoryShips =>
  }

  lemma RoundTrip7(k: Key)
    requires k in {MinDropoffDistance, DropoffMinNearbyShips}
    ensures ParseKey(KeyName(k)) == Some(k)
  {
    match k
      case MinDropoffDistance =>
      case DropoffMinNearbyShips =>
  }

  /** ... and accepts no other text. */
  lemma ParseKeyExact(s: string)
    ensures ParseKey(s).Some? ==> KeyName(ParseKey(s).value) == s
  {
  }

  /** The keys whose field is an `Optional<Integer>` (parsed with
      Integer.parseInt); every other key's value is parsed as a double. */
  predicate IntegerKey(k: Key)
  {
    k in {IterationsAllowed, AggroPlayers, ShipsPerDropoff, FirstDropoffShips,
          SecondDropoffShips, MinDropoffDistance, DropoffMinNearbyShips,
          DropoffTerritoryShips, DropoffShipMaxDistance}
  }

  /** A tuning value: an int or a double. */
  datatype Number = Whole(i: int) | Fraction(r: real)

  /** The text parsers: Integer.parseInt and Double.parseDouble, `None`
      where they throw NumberFormatException. */
  datatype Parsers = Parsers(parseInt: string -> Option<int>, parseDouble: string -> Option<real>)

  /** The value an override's text gives for key `k`. */
  function ParseValue(p: Parsers, k: Key, text: string): (r: Option<Number>)
    ensures IntegerKey(k) ==> r == (if p.parseInt(text).Some? then Some(Whole(p.parseInt(text).value)) else None)
    ensures !IntegerKey(k) ==> r == (if p.parseDouble(text).Some? then Some(Fraction(p.parseDouble(text).value)) else None)
  {
    if IntegerKey(k) then
      (match p.parseInt(text) case Some(n) => Some(Whole(n)) case None => None)
    else
      (match p.parseDouble(text) case Some(x) => Some(Fraction(x)) case None => None)
  }

  /** Why the constructor throws on the entry `key = text`, if it does: an
      unknown key (lines 143-144) or a value that does not parse. */
  function Rejection(p: Parsers, key: string, text: string): Option<Failure>
  {
    match ParseKey(key)
    case None => Some(UnknownKey)
    case Some(k) => if ParseValue(p, k, text).None? then Some(BadNumber) else None
  }

  predicate AllAccepted(p: Parsers, args: map<string, string>)
  {
    forall key :: key in args ==> Rejection(p, key, args[key]).None?
  }

  /** The fields the constructor fills, keyed by the key's text. */
  function Overrides(p: Parsers, args: map<string, string>): (ov: map<string, Number>)
    requires AllAccepted(p, args)
    ensures ov.Keys == args.Keys
    ensures forall key :: key in ov ==> ParseKey(key).Some?
  {
    map key | key in args :: ParseValue(p, ParseKey(key).value, args[key]).value
  }

  /** The BotConstantsArgs constructor's loop over the argument keys
      (lines 46-147). The key order of the Java map is not known, so when
      several entries are bad, the failure reported is that of one of them. */
  method BuildOverrides(p: Parsers, args: map<string, string>) returns (r: Result<map<string, Number>>)
    ensures r.Ok? <==> AllAccepted(p, args)
    ensures r.Ok? ==> r.value == Overrides(p, args)
    ensures r.Err? ==> exists key :: key in args && Rejection(p, key, args[key]) == Some(r.failure)
  {
    var todo := args.Keys;
    var built: map<string, Number> := map[];
    while todo != {}
      invariant todo <= args.Keys
      invariant built.Keys == args.Keys - todo
      invariant forall key :: key in built ==>
        Rejection(p, key, args[key]).None? && built[key] == ParseValue(p, ParseKey(key).value, args[key]).value
      decreases todo
    {
      var key :| key in todo;
      var k := ParseKey(key);
      if k.None? {
        return Err(UnknownKey);
      }
      var v := ParseValue(p, k.value, args[key]);
      if v.None? {
        return Err(BadNumber);
      }
      built := built[key := v.value];
      todo := todo - {key};
    }
    assert AllAccepted(p, args) by {
      forall key | key in args ensures Rejection(p, key, args[key]).None? {
        assert key in built;
      }
    }
    SameOverrides(p, args, built);
    return Ok(built);
  }

  lemma SameOverrides(p: Parsers, args: map<string, string>, built: map<string, Number>)
    requires AllAccepted(p, args)
    requires built.Keys == args.Keys
    requires forall key :: key in built ==> built[key] == ParseValue(p, ParseKey(key).value, args[key]).value
    ensures built == Overrides(p, args)
  {
  }

  // ---------------------------------------------------------------------
  // Reading a constant

  /** What BotConstants.get() holds: nothing before setSize, a tuning
      table, or a BotConstantsArgs wrapping another configuration. */
  datatype Config = Unset | Tuned(table: Table) | Args(base: Config, overrides: map<string, Number>)

  /** The tuning values: what each table's getter returns (its own
      definition or one it inherits), and the bodies BotConstants itself
      gives its non-abstract getters. Both are indexed by getter name. */
  datatype Tables = Tables(value: (Table, string) -> Number, defaults: string -> Number)

  const ExploitTheWeak := "EXPLOIT_THE_WEAK"
  const OrphanKeys: set<string> := {"RETURN_TERRITORY_DROPOFF", "DROPOFF_SQUARE_BONUS"}

  /** The getters BotConstantsArgs redefines to read an override: one per
      key, of the key's own name, except the two keys the constructor
      stores but that no getter reads (lines 37, 62-64 and 22, 116-118). */
  predicate Redefined(name: string)
  {
    ParseKey(name).Some? && name !in OrphanKeys
  }

  /** The value the getter `name` returns on configuration `c`, `None`
      where it throws NullPointerException. BotConstantsArgs' getters
      (lines 150-264) evaluate the base's getter before `orElse`, so an
      unset base throws even when the key is overridden. A getter it does
      not redefine is BotConstants' own. */
  function Get(t: Tables, c: Config, name: string): Option<Number>
    decreases c
  {
    match c
    case Unset => None
    case Tuned(table) => Some(t.value(table, name))
    case Args(base, ov) =>
      if name == ExploitTheWeak then Get(t, base, name)
      else if Redefined(name) then
        var b := Get(t, base, name);
        if b.None? then None else if name in ov then Some(ov[name]) else b
      else Some(t.defaults(name))
  }

  /** Before setSize every getter throws; an override layer over an unset
      base throws exactly for the getters that consult the base. */
  lemma UnsetThrows(t: Tables, ov: map<string, Number>, name: string)
    ensures Get(t, Unset, name).None?
    ensures Get(t, Args(Unset, ov), name).None? <==> (name == ExploitTheWeak || Redefined(name))
  {
  }

  /** An override of a redefined getter wins over a set base. */
  lemma OverrideWins(t: Tables, base: Config, ov: map<string, Number>, name: string)
    requires Redefined(name) && name in ov && Get(t, base, name).Some?
    ensures Get(t, Args(base, ov), name) == Some(ov[name])
  {
  }

  /** A redefined getter without an override reads the base. */
  lemma AbsentFallsBack(t: Tables, base: Config, ov: map<string, Number>, name: string)
    requires Redefined(name) && name !in ov
    ensures Get(t, Args(base, ov), name) == Get(t, base, name)
  {
  }

  /** EXPLOIT_THE_WEAK always reads the base (lines 162-165). */
  lemma ExploitDelegates(t: Tables, base: Config, ov: map<string, Number>)
    ensures Get(t, Args(base, ov), ExploitTheWeak) == Get(t, base, ExploitTheWeak)
  {
  }

  /** The two stored-but-unread keys change nothing. */
  lemma OrphanKeysIgnored(t: Tables, base: Config, ov: map<string, Number>, name: string)
    ensures Get(t, Args(base, ov), name) == Get(t, Args(base, ov - OrphanKeys), name)
  {
  }

  /** As written, any other getter of an override layer is BotConstants'
      own, whatever table is underneath. */
  lemma InheritedGetterIgnoresBase(t: Tables, base: Config, ov: map<string, Number>, name: string)
    requires name != ExploitTheWeak && !Redefined(name)
    ensures Get(t, Args(base, ov), name) == Some(t.defaults(name))
  {
  }

  const NearbyEnemyBonus := "NEARBY_ENEMY_BONUS"

  /** NEARBY_ENEMY_BONUS: 0.1 in BotConstants (line 26), 0.0 in the
      two-player tables (BotConstants2P.java line 7). */
  function NearbyEnemyBonusIn(table: Table): real
  {
    if TwoPlayerTable(table) then 0.0 else 0.1
  }

  /** The discrepancy on one input: in a two-player game any override,
      of RETURN_RATIO say, turns NEARBY_ENEMY_BONUS from 0.0 into 0.1. */
  lemma OverrideResetsNearbyEnemyBonus(t: Tables)
    requires forall table :: t.value(table, NearbyEnemyBonus) == Fraction(NearbyEnemyBonusIn(table))
    requires t.defaults(NearbyEnemyBonus) == Fraction(0.1)
    ensures Get(t, Tuned(Table2_32), NearbyEnemyBonus) == Some(Fraction(0.0))
    ensures Get(t, Args(Tuned(Table2_32), map["RETURN_RATIO" := Fraction(10.0)]), NearbyEnemyBonus) == Some(Fraction(0.1))
  {
    assert !Redefined(NearbyEnemyBonus);
  }

  /** The evident intent: a getter with no override reads the base, as
      EXPLOIT_THE_WEAK already does. */
  function GetDelegating(t: Tables, c: Config, name: string): Option<Number>
    decreases c
  {
    match c
    case Unset => None
    case Tuned(table) => Some(t.value(table, name))
    case Args(base, ov) =>
      var b := GetDelegating(t, base, name);
      if b.None? then None else if Redefined(name) && name in ov then Some(ov[name]) else b
  }

  /** With delegation, an override layer over a set base changes exactly
      the getters of its own keys. */
  lemma DelegatingChangesOnlyOverridden(t: Tables, base: Config, ov: map<string, Number>, name: string)
    ensures (Redefined(name) && name in ov && GetDelegating(t, base, name).Some?) ==>
      GetDelegating(t, Args(base, ov), name) == Some(ov[name])
    ensures !(Redefined(name) && name in ov) ==>
      GetDelegating(t, Args(base, ov), name) == GetDelegating(t, base, name)
  {
  }

  /** The corrected getter agrees with the source's on every getter the
      source redefines, and on EXPLOIT_THE_WEAK. */
  lemma {:induction false} DelegatingAgreesWhereRedefined(t: Tables, c: Config, name: string)
    requires Redefined(name) || name == ExploitTheWeak
    ensures GetDelegating(t, c, name) == Get(t, c, name)
    decreases c
  {
    if c.Args? {
      DelegatingAgreesWhereRedefined(t, c.base, name);
    }
  }

  // ---------------------------------------------------------------------
  // The static holder

  /** BotConstants' static `constants` field and its setters. */
  class ConstantsHolder {
    var constants: Config

    constructor ()
      ensures constants == Unset
    {
      constants := Unset;
    }

    /** BotConstants.setSize (lines 68-96). */
    method SetSize(players: int, width: int)
      modifies this
      ensures constants == Tuned(ChooseTable(players, width))
    {
      constants := Tuned(ChooseTable(players, width));
    }

    /** BotConstants.setConfigOverrides (lines 98-100): wraps the current
        configuration when there are overrides; `Err` where the
        constructor throws, leaving the field as it was. */
    method SetConfigOverrides(p: Parsers, args: map<string, string>) returns (r: Result<()>)
      modifies this
      ensures r.Ok? <==> AllAccepted(p, args)
      ensures r.Ok? && args == map[] ==> constants == old(constants)
      ensures r.Ok? && args != map[] ==> constants == Args(old(constants), Overrides(p, args))
      ensures r.Err? ==> constants == old(constants)
    {
      if args == map[] {
        return Ok(());
      }
      var built := BuildOverrides(p, args);
      if built.Err? {
        return Err(built.failure);
      }
      constants := Args(constants, built.value);
      return Ok(());
    }
  }
}
