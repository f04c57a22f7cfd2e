/** The text commands sent to the game engine (hlt/ShipCommand.java,
    hlt/Command.java). */
module ShipCommands {
  import opened Wrappers
  import opened Geometry
  import opened World

  /** ShipCommand: the text, the cell the ship ends on, the ship, and
      whether the destination may be shared. */
  datatype ShipCommand = ShipCommand(text: string, destination: Position, ship: Ship, canCollide: bool)

  /** A command of the turn: a ship command or the spawn command "g". */
  datatype Command = ShipOrder(order: ShipCommand) | SpawnShip

  function CommandText(c: Command): string
  {
    match c
    case ShipOrder(o) => o.text
    case SpawnShip => "g"
  }

  function DigitChar(d: int): char
    requires 0 <= d < 10
  {
    "0123456789"[d]
  }

  function DigitValue(c: char): Option<nat>
  {
    if '0' <= c <= '9' then Some(c as int - '0' as int) else None
  }

  /** The decimal text of an entity id, as Java's string concatenation
      writes it. */
  function NatText(n: nat): (s: string)
    ensures |s| >= 1
    ensures forall i :: 0 <= i < |s| ==> DigitValue(s[i]).Some?
  {
    if n < 10 then [DigitChar(n)] else NatText(n / 10) + [DigitChar(n % 10)]
  }

  /** Reads a non-empty string of decimal digits. */
  function ParseNat(s: string): Option<nat>
  {
    if s == [] then None
    else if |s| == 1 then DigitValue(s[0])
    else
      match (ParseNat(s[..|s| - 1]), DigitValue(s[|s| - 1]))
      case (Some(a), Some(b)) => Some(10 * a + b)
      case _ => None
  }

  lemma DigitRoundTrip(d: int)
    requires 0 <= d < 10
    ensures DigitValue(DigitChar(d)) == Some(d)
  {
  }

  lemma {:induction false} NatTextRoundTrip(n: nat)
    ensures ParseNat(NatText(n)) == Some(n)
  {
    if n < 10 {
      DigitRoundTrip(n);
    } else {
      var q, r := n / 10, n % 10;
      assert n == 10 * q + r;
      var s := NatText(n);
      assert s == NatText(q) + [DigitChar(r)];
      NatTextRoundTrip(q);
      DigitRoundTrip(r);
      assert s[..|s| - 1] == NatText(q);
      assert ParseNat(s) == Some(10 * q + r);
    }
  }

  /** ShipCommand.move: "m <id> <direction>", ending on the offset cell,
      never tolerant of a shared destination. */
  function Move(m: GameMap, ship: Ship, d: Direction): ShipCommand
    requires ValidMap(m)
  {
    ShipCommand("m " + NatText(ship.id) + " " + [DirChar(d)], DirectionalOffset(m, ship.position, d), ship, false)
  }

  /** ShipCommand.transformShipIntoDropoffSite: "c <id>", ending where the
      ship stands, tolerant of a shared destination. */
  function TransformShipIntoDropoffSite(ship: Ship): ShipCommand
  {
    ShipCommand("c " + NatText(ship.id), ship.position, ship, true)
  }

  /** What the engine reads from a command text. */
  datatype Order = MoveOrder(id: nat, dir: Direction) | ConvertOrder(id: nat) | SpawnOrder

  function Decode(text: string): Option<Order>
  {
    if text == "g" then Some(SpawnOrder)
    else if |text| >= 3 && text[0] == 'c' && text[1] == ' ' then
      match ParseNat(text[2..])
      case Some(id) => Some(ConvertOrder(id))
      case None => None
    else if |text| >= 5 && text[0] == 'm' && text[1] == ' ' && text[|text| - 2] == ' ' then
      match (ParseNat(text[2..|text| - 2]), CharDir(text[|text| - 1]))
      case (Some(id), Some(d)) => Some(MoveOrder(id, d))
      case _ => None
    else None
  }

  /** A move command tells the engine which ship moves and where, ends on
      the cell that direction reaches, and never tolerates a shared cell. */
  lemma MoveCommandMeaning(m: GameMap, ship: Ship, d: Direction)
    requires ValidMap(m)
    ensures Decode(Move(m, ship, d).text) == Some(MoveOrder(ship.id, d))
    ensures Move(m, ship, d).destination == DirectionalOffset(m, ship.position, d)
    ensures !Move(m, ship, d).canCollide && Move(m, ship, d).ship == ship
  {
    var t := Move(m, ship, d).text;
    var digits := NatText(ship.id);
    assert t[2..|t| - 2] == digits;
    NatTextRoundTrip(ship.id);
    DirCharRoundTrip(d);
  }

  /** A conversion command names the converting ship, stays on its cell and
      tolerates a shared destination. */
  lemma ConvertCommandMeaning(ship: Ship)
    ensures Decode(TransformShipIntoDropoffSite(ship).text) == Some(ConvertOrder(ship.id))
    ensures TransformShipIntoDropoffSite(ship).destination == ship.position
    ensures TransformShipIntoDropoffSite(ship).canCollide
  {
    var t := TransformShipIntoDropoffSite(ship).text;
    assert t[2..] == NatText(ship.id);
    NatTextRoundTrip(ship.id);
  }

  lemma SpawnCommandMeaning()
    ensures Decode(CommandText(SpawnShip)) == Some(SpawnOrder)
  {
  }
}
