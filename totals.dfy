/** Quantities summed over the lots a selector picks out. */
module Totals {
  import opened Models

  /** Which lots a sum counts. */
  datatype Selector =
    | OfType(t: int)             // every lot of a tree type
    | OfTypeAt(t: int, loc: int) // the lots of a tree type kept at one location
    | AvailableOf(t: int)        // the lots of a tree type that a sale may draw on

  /** What lot `l` contributes to a sum over `sel`. */
  function Counted(l: Lot, sel: Selector): int {
    match sel
    case OfType(t) => if l.treeTypeId == t then l.quantity else 0
    case OfTypeAt(t, loc) => if l.treeTypeId == t && l.locationId == loc then l.quantity else 0
    case AvailableOf(t) => if l.treeTypeId == t && l.quantity > 0 then l.quantity else 0
  }

  function Sum(lots: seq<Lot>, sel: Selector): int
    decreases |lots|
  {
    if lots == [] then 0 else Sum(lots[..|lots| - 1], sel) + Counted(lots[|lots| - 1], sel)
  }

  /** Inserting a lot adds exactly its own contribution. */
  lemma SumAppend(lots: seq<Lot>, l: Lot, sel: Selector)
    ensures Sum(lots + [l], sel) == Sum(lots, sel) + Counted(l, sel)
  {
  }

  /** Replacing one lot changes a sum by the difference of the two contributions. */
  lemma {:induction false} SumUpdate(lots: seq<Lot>, i: nat, l: Lot, sel: Selector)
    requires i < |lots|
    ensures Sum(lots[i := l], sel) == Sum(lots, sel) - Counted(lots[i], sel) + Counted(l, sel)
  {
    var n := |lots| - 1;
    if i == n {
      assert lots[i := l][..n] == lots[..n];
    } else {
      assert lots[i := l][..n] == lots[..n][i := l];
      SumUpdate(lots[..n], i, l, sel);
    }
  }

  /** When no lot is negative, what a sale may draw on is the whole quantity of the type. */
  lemma {:induction false} AvailableIsTotal(lots: seq<Lot>, t: int)
    requires NonNegative(lots)
    ensures Sum(lots, AvailableOf(t)) == Sum(lots, OfType(t))
  {
    if lots != [] {
      AvailableIsTotal(lots[..|lots| - 1], t);
    }
  }
}
