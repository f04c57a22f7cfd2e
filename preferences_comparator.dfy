/** PreferencesComparator (bots/current_bot/mining/PreferencesComparator.java):
    the order in which the commit phase of the claim auction visits ships.
    Ships with a claim come first, nearest claim first; ships without one
    come last. */
module Preferences {
  import opened Geometry
  import opened World

  /** Integer.compareTo. */
  function CompareInts(x: int, y: int): (r: int)
    ensures r == -1 <==> x < y
    ensures r == 0 <==> x == y
    ensures r == 1 <==> x > y
  {
    if x < y then -1 else if x == y then 0 else 1
  }

  function Sign(v: int): int
  {
    if v < 0 then -1 else if v == 0 then 0 else 1
  }

  /** compare(ship_1, ship_2) over the claims table. The value for a
      claimed ship against an unclaimed one is -2, as in the source. */
  function Compare(m: GameMap, inverseClaims: map<Ship, Position>, a: Ship, b: Ship): int
  {
    if a !in inverseClaims && b !in inverseClaims then 0
    else if a !in inverseClaims then 1
    else if b !in inverseClaims then -2
    else CompareInts(CalculateDistance(m, a.position, inverseClaims[a]), CalculateDistance(m, b.position, inverseClaims[b]))
  }

  /** The distance from a ship to its claim. */
  function ClaimDistance(m: GameMap, inverseClaims: map<Ship, Position>, s: Ship): int
    requires s in inverseClaims
  {
    CalculateDistance(m, s.position, inverseClaims[s])
  }

  /** The four cases of compare: two unclaimed ships tie, an unclaimed ship
      sorts after a claimed one, and two claimed ships are ordered by the
      distance to their claims. */
  lemma CompareCases(m: GameMap, inverseClaims: map<Ship, Position>, a: Ship, b: Ship)
    ensures a !in inverseClaims && b !in inverseClaims ==> Compare(m, inverseClaims, a, b) == 0
    ensures a !in inverseClaims && b in inverseClaims ==> Compare(m, inverseClaims, a, b) > 0
    ensures a in inverseClaims && b !in inverseClaims ==> Compare(m, inverseClaims, a, b) < 0
    ensures a in inverseClaims && b in inverseClaims ==>
      Sign(Compare(m, inverseClaims, a, b)) == Sign(ClaimDistance(m, inverseClaims, a) - ClaimDistance(m, inverseClaims, b))
  {
  }

  /** The sort key the comparator induces: the claim distance, and for an
      unclaimed ship a value beyond every distance on the map. */
  function Rank(m: GameMap, inverseClaims: map<Ship, Position>, s: Ship): int
  {
    if s in inverseClaims then ClaimDistance(m, inverseClaims, s) else m.width + m.height + 1
  }

  /** No wrapped distance reaches the sum of the map's sides, so the rank
      of an unclaimed ship exceeds that of every claimed ship. */
  lemma RankSeparates(m: GameMap, inverseClaims: map<Ship, Position>, s: Ship)
    ensures s in inverseClaims ==> Rank(m, inverseClaims, s) <= m.width + m.height
  {
  }

  /** compare agrees in sign with the difference of ranks. */
  lemma CompareByRank(m: GameMap, inverseClaims: map<Ship, Position>, a: Ship, b: Ship)
    ensures Sign(Compare(m, inverseClaims, a, b)) == Sign(Rank(m, inverseClaims, a) - Rank(m, inverseClaims, b))
  {
    RankSeparates(m, inverseClaims, a);
    RankSeparates(m, inverseClaims, b);
  }

  /** The comparator's contract: the sign of compare(a, b) is the opposite
      of that of compare(b, a), and "not after" is transitive. */
  lemma CompareIsConsistent(m: GameMap, inverseClaims: map<Ship, Position>, a: Ship, b: Ship, c: Ship)
    ensures Sign(Compare(m, inverseClaims, a, b)) == -Sign(Compare(m, inverseClaims, b, a))
    ensures Compare(m, inverseClaims, a, b) <= 0 && Compare(m, inverseClaims, b, c) <= 0 ==> Compare(m, inverseClaims, a, c) <= 0
  {
    CompareByRank(m, inverseClaims, a, b);
    CompareByRank(m, inverseClaims, b, a);
    CompareByRank(m, inverseClaims, b, c);
    CompareByRank(m, inverseClaims, a, c);
  }

  /** A list of distinct ships in comparator order. */
  predicate SortedList(m: GameMap, inverseClaims: map<Ship, Position>, list: seq<Ship>)
  {
    && (forall i, j :: 0 <= i < j < |list| ==> list[i] != list[j])
    && (forall i, j :: 0 <= i < j < |list| ==> Compare(m, inverseClaims, list[i], list[j]) <= 0)
  }

  /** A ship of least rank in a non-empty set of ships. */
  method LeastRanked(m: GameMap, inverseClaims: map<Ship, Position>, ships: set<Ship>) returns (s: Ship)
    requires ships != {}
    ensures s in ships
    ensures forall t :: t in ships ==> Rank(m, inverseClaims, s) <= Rank(m, inverseClaims, t)
  {
    s :| s in ships;
    var rest := ships - {s};
    while rest != {}
      invariant s in ships && rest <= ships
      invariant forall t :: t in ships && t !in rest ==> Rank(m, inverseClaims, s) <= Rank(m, inverseClaims, t)
      decreases |rest|
    {
      var t :| t in rest;
      if Rank(m, inverseClaims, t) < Rank(m, inverseClaims, s) {
        s := t;
      }
      rest := rest - {t};
    }
  }

  predicate Distinct(list: seq<Ship>)
  {
    forall i, j :: 0 <= i < j < |list| ==> list[i] != list[j]
  }

  /** The ranks along the list never decrease. */
  predicate RankSorted(m: GameMap, inverseClaims: map<Ship, Position>, list: seq<Ship>)
  {
    forall i, j :: 0 <= i < j < |list| ==> Rank(m, inverseClaims, list[i]) <= Rank(m, inverseClaims, list[j])
  }

  /** No ship of the list ranks above a ship still to be placed. */
  predicate RanksBelow(m: GameMap, inverseClaims: map<Ship, Position>, list: seq<Ship>, rest: set<Ship>)
  {
    forall i, t :: 0 <= i < |list| && t in rest ==> Rank(m, inverseClaims, list[i]) <= Rank(m, inverseClaims, t)
  }

  /** Appending a least-ranked remaining ship keeps the list distinct,
      sorted by rank and below what remains. */
  lemma AppendLeast(m: GameMap, inverseClaims: map<Ship, Position>, list: seq<Ship>, rest: set<Ship>, s: Ship)
    requires s in rest && forall t :: t in rest ==> Rank(m, inverseClaims, s) <= Rank(m, inverseClaims, t)
    requires forall t :: t in list ==> t !in rest
    requires Distinct(list) && RankSorted(m, inverseClaims, list) && RanksBelow(m, inverseClaims, list, rest)
    ensures Distinct(list + [s]) && RankSorted(m, inverseClaims, list + [s])
    ensures RanksBelow(m, inverseClaims, list + [s], rest - {s})
  {
  }

  /** A list sorted by rank is in comparator order. */
  lemma RankSortedIsSorted(m: GameMap, inverseClaims: map<Ship, Position>, list: seq<Ship>)
    requires Distinct(list) && RankSorted(m, inverseClaims, list)
    ensures SortedList(m, inverseClaims, list)
  {
    forall i, j | 0 <= i < j < |list|
      ensures Compare(m, inverseClaims, list[i], list[j]) <= 0
    {
      CompareByRank(m, inverseClaims, list[i], list[j]);
    }
  }

  /** shipsList.sort(new PreferencesComparator(...)) over an arbitrary
      listing of the remaining ships: the result holds each ship once, in
      comparator order; ships that compare equal come in either order. */
  method SortByPreference(m: GameMap, inverseClaims: map<Ship, Position>, ships: set<Ship>) returns (list: seq<Ship>)
    ensures forall s :: s in list <==> s in ships
    ensures |list| == |ships|
    ensures SortedList(m, inverseClaims, list)
  {
    list := [];
    var rest := ships;
    while rest != {}
      invariant rest <= ships
      invariant forall s :: s in ships <==> s in list || s in rest
      invariant forall s :: s in list ==> s !in rest
      invariant |list| + |rest| == |ships|
      invariant Distinct(list) && RankSorted(m, inverseClaims, list) && RanksBelow(m, inverseClaims, list, rest)
      decreases |rest|
    {
      var s := LeastRanked(m, inverseClaims, rest);
      AppendLeast(m, inverseClaims, list, rest, s);
      list := list + [s];
      rest := rest - {s};
    }
    RankSortedIsSorted(m, inverseClaims, list);
  }
}
