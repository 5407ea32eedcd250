/** What moving units out of one lot does to the store of lots. */
module Moves {
  import opened Models
  import opened Totals
  import opened Queries

  /** Where the moved units land: the first lot of the source's tree type at `toLoc` (which may
      be the source itself), or, when there is none, the new lot appended at position |lots|. */
  function Destination(lots: seq<Lot>, s: nat, toLoc: int): (d: nat)
    requires s < |lots|
    ensures d <= |lots|
    ensures d < |lots| ==> lots[d].treeTypeId == lots[s].treeTypeId && lots[d].locationId == toLoc
    ensures forall j :: 0 <= j < d && j < |lots| ==>
      !(lots[j].treeTypeId == lots[s].treeTypeId && lots[j].locationId == toLoc)
  {
    match FirstOfTypeAt(lots, lots[s].treeTypeId, toLoc)
    case Some(k) => k
    case None => |lots|
  }

  /** The lots after moving `q` units out of lot `s` to location `toLoc` at time `now`: the
      destination is credited first, then the source is debited. */
  function MoveLots(lots: seq<Lot>, s: nat, toLoc: int, q: int, now: int): (r: seq<Lot>)
    requires s < |lots|
    ensures |r| == if Destination(lots, s, toLoc) < |lots| then |lots| else |lots| + 1
  {
    var src := lots[s];
    var d := Destination(lots, s, toLoc);
    var credited :=
      if d < |lots| then lots[d := lots[d].(quantity := lots[d].quantity + q)]
      else lots + [Lot(|lots| + 1, src.treeTypeId, toLoc, q, now, src.costPerSeedling)];
    credited[s := credited[s].(quantity := credited[s].quantity - q)]
  }

  /** A move changes the source's quantity and the destination's, or appends one new lot that
      keeps the source's cost; every other lot is left as it was. Moving onto the source
      itself changes nothing. */
  lemma MoveEffect(lots: seq<Lot>, s: nat, toLoc: int, q: int, now: int)
    requires s < |lots|
    ensures var r := MoveLots(lots, s, toLoc, q, now);
      var d := Destination(lots, s, toLoc);
      |r| == (if d < |lots| then |lots| else |lots| + 1) &&
      (d == s ==> r == lots) &&
      (d != s ==> r[s] == lots[s].(quantity := lots[s].quantity - q)) &&
      (d != s && d < |lots| ==> r[d] == lots[d].(quantity := lots[d].quantity + q)) &&
      (d == |lots| ==>
        r[d] == Lot(|lots| + 1, lots[s].treeTypeId, toLoc, q, now, lots[s].costPerSeedling)) &&
      (forall i :: 0 <= i < |lots| && i != s && i != d ==> r[i] == lots[i])
  {
  }

  /** The units of a lot of type `t` at `loc` that a sum over `sel` sees when `q` units
      are added to that lot. */
  function Seen(sel: Selector, t: int, loc: int, q: int): int
    requires !sel.AvailableOf?
  {
    match sel
    case OfType(t') => if t' == t then q else 0
    case OfTypeAt(t', loc') => if t' == t && loc' == loc then q else 0
  }

  lemma {:induction false} MoveShifts(lots: seq<Lot>, s: nat, toLoc: int, q: int, now: int, sel: Selector)
    requires s < |lots| && !sel.AvailableOf?
    ensures Sum(MoveLots(lots, s, toLoc, q, now), sel) ==
      Sum(lots, sel) - Seen(sel, lots[s].treeTypeId, lots[s].locationId, q) + Seen(sel, lots[s].treeTypeId, toLoc, q)
  {
    var src := lots[s];
    var d := Destination(lots, s, toLoc);
    var credited :=
      if d < |lots| then lots[d := lots[d].(quantity := lots[d].quantity + q)]
      else lots + [Lot(|lots| + 1, src.treeTypeId, toLoc, q, now, src.costPerSeedling)];
    if d < |lots| {
      SumUpdate(lots, d, credited[d], sel);
    } else {
      SumAppend(lots, credited[d], sel);
    }
    SumUpdate(credited, s, credited[s].(quantity := credited[s].quantity - q), sel);
  }

  /** A move conserves the quantity of every tree type; inside one location it also
      conserves the quantity of every type at every location. */
  lemma MoveConserves(lots: seq<Lot>, s: nat, toLoc: int, q: int, now: int)
    requires s < |lots|
    ensures forall t :: Sum(MoveLots(lots, s, toLoc, q, now), OfType(t)) == Sum(lots, OfType(t))
    ensures toLoc == lots[s].locationId ==> forall t, loc ::
      Sum(MoveLots(lots, s, toLoc, q, now), OfTypeAt(t, loc)) == Sum(lots, OfTypeAt(t, loc))
  {
    forall t ensures Sum(MoveLots(lots, s, toLoc, q, now), OfType(t)) == Sum(lots, OfType(t)) {
      MoveShifts(lots, s, toLoc, q, now, OfType(t));
    }
    if toLoc == lots[s].locationId {
      forall t, loc
        ensures Sum(MoveLots(lots, s, toLoc, q, now), OfTypeAt(t, loc)) == Sum(lots, OfTypeAt(t, loc))
      {
        MoveShifts(lots, s, toLoc, q, now, OfTypeAt(t, loc));
      }
    }
  }

  /** Moving between two different locations takes `q` units of the type from the source's
      location and adds them at the destination. */
  lemma MoveBetweenLocations(lots: seq<Lot>, s: nat, toLoc: int, q: int, now: int)
    requires s < |lots| && toLoc != lots[s].locationId
    ensures var r := MoveLots(lots, s, toLoc, q, now); var t := lots[s].treeTypeId;
      Sum(r, OfTypeAt(t, lots[s].locationId)) == Sum(lots, OfTypeAt(t, lots[s].locationId)) - q &&
      Sum(r, OfTypeAt(t, toLoc)) == Sum(lots, OfTypeAt(t, toLoc)) + q
  {
    MoveShifts(lots, s, toLoc, q, now, OfTypeAt(lots[s].treeTypeId, lots[s].locationId));
    MoveShifts(lots, s, toLoc, q, now, OfTypeAt(lots[s].treeTypeId, toLoc));
  }

  /** Moving at most what the source holds never makes a quantity negative. */
  lemma MoveKeepsNonNegative(lots: seq<Lot>, s: nat, toLoc: int, q: int, now: int)
    requires s < |lots| && 0 < q <= lots[s].quantity
    requires NonNegative(lots)
    ensures NonNegative(MoveLots(lots, s, toLoc, q, now))
  {
  }

  /** Moving 4 of the 10 units of a lot to a location that already holds 3 of the same type
      leaves 6 at the source and 7 in the existing lot, with no new lot. */
  lemma MoveExample()
    ensures var src := Lot(1, 7, 1, 10, 0, 0);
      var there := Lot(2, 7, 2, 3, 0, 0);
      MoveLots([src, there], 0, 2, 4, 100) == [src.(quantity := 6), there.(quantity := 7)]
  {
  }
}
