/** The order in which a sale draws on lots (oldest `dateAdded` first) and the draining a
    sale performs along that order. Lots are named by their position in the store. */
module Fifo {
  import opened Models
  import opened Totals

  /** Lot `i` is drawn on before lot `j`: it was added earlier, or at the same moment with a
      lower position (id). The position tie-break is this model's choice. */
  predicate Before(lots: seq<Lot>, i: nat, j: nat)
    requires i < |lots| && j < |lots|
  {
    lots[i].dateAdded < lots[j].dateAdded || (lots[i].dateAdded == lots[j].dateAdded && i < j)
  }

  /** Lot `i` is one a sale of type `t` may draw on. */
  predicate Draws(lots: seq<Lot>, t: int, i: nat)
    requires i < |lots|
  {
    lots[i].treeTypeId == t && lots[i].quantity > 0
  }

  predicate InRange(lots: seq<Lot>, order: seq<nat>) {
    forall p :: 0 <= p < |order| ==> order[p] < |lots|
  }

  predicate OldestFirst(lots: seq<Lot>, order: seq<nat>) {
    InRange(lots, order) &&
    forall p, p' :: 0 <= p < p' < |order| ==> Before(lots, order[p], order[p'])
  }

  predicate Distinct(order: seq<nat>) {
    forall p, p' :: 0 <= p < p' < |order| ==> order[p] != order[p']
  }

  /** The quantity held by the lots `order` names, in that order. */
  function SumAt(lots: seq<Lot>, order: seq<nat>): int
    requires InRange(lots, order)
    decreases |order|
  {
    if order == [] then 0 else lots[order[0]].quantity + SumAt(lots, order[1..])
  }

  /** Places lot `i` in front of the first lot it is drawn on before. */
  function Insert(lots: seq<Lot>, order: seq<nat>, i: nat): (r: seq<nat>)
    requires OldestFirst(lots, order) && i < |lots| && i !in order
    ensures OldestFirst(lots, r)
    ensures forall x :: x in r <==> x in order || x == i
    ensures SumAt(lots, r) == SumAt(lots, order) + lots[i].quantity
    decreases |order|
  {
    if order == [] then [i]
    else if Before(lots, i, order[0]) then [i] + order
    else
      var rest := Insert(lots, order[1..], i);
      assert forall x :: x in rest ==> Before(lots, order[0], x) by {
        forall x | x in rest ensures Before(lots, order[0], x) {
          if x != i {
            var p :| 0 <= p < |order[1..]| && order[1..][p] == x;
            assert order[p + 1] == x;
          }
        }
      }
      [order[0]] + rest
  }

  /** The lots below position `n` that a sale of type `t` draws on, oldest first: the model of
      `filter(tree_type_id == t, quantity > 0).order_by(date_added.asc())`. */
  function FifoOrder(lots: seq<Lot>, t: int, n: nat): (r: seq<nat>)
    requires n <= |lots|
    ensures OldestFirst(lots, r)
    ensures forall i: nat :: i in r <==> i < n && Draws(lots, t, i)
    ensures SumAt(lots, r) == Sum(lots[..n], AvailableOf(t))
    decreases n
  {
    if n == 0 then []
    else
      var rest := FifoOrder(lots, t, n - 1);
      assert lots[..n][..n - 1] == lots[..n - 1];
      if Draws(lots, t, n - 1) then Insert(lots, rest, n - 1) else rest
  }

  /** The sale loop: walk `order`, emptying each lot until `remaining` units are taken. */
  function Drain(lots: seq<Lot>, order: seq<nat>, remaining: int): (r: seq<Lot>)
    requires InRange(lots, order)
    ensures |r| == |lots|
    decreases |order|
  {
    if order == [] || remaining <= 0 then lots
    else
      var i := order[0];
      var have := lots[i].quantity;
      if have >= remaining then
        Drain(lots[i := lots[i].(quantity := have - remaining)], order[1..], 0)
      else
        Drain(lots[i := lots[i].(quantity := 0)], order[1..], remaining - have)
  }

  /** One turn of the sale loop: taking what lot `order[j]` can give of `remaining`. */
  lemma DrainStep(lots: seq<Lot>, order: seq<nat>, j: nat, remaining: int)
    requires InRange(lots, order) && j < |order| && remaining > 0
    ensures var i := order[j];
      var taken := if lots[i].quantity >= remaining then remaining else lots[i].quantity;
      Drain(lots, order[j..], remaining) ==
      Drain(lots[i := lots[i].(quantity := lots[i].quantity - taken)], order[j + 1..], remaining - taken)
  {
  }

  /** The loop is over once nothing remains or every lot has been visited. */
  lemma DrainDone(lots: seq<Lot>, order: seq<nat>, j: nat, remaining: int)
    requires InRange(lots, order) && j <= |order| && (j == |order| || remaining <= 0)
    ensures Drain(lots, order[j..], remaining) == lots
  {
  }

  lemma OldestFirstIsDistinct(lots: seq<Lot>, order: seq<nat>)
    requires OldestFirst(lots, order)
    ensures Distinct(order)
  {
  }

  /** The lots a sale draws on hold a non-negative amount between them. */
  lemma {:induction false} SumAtNonNegative(lots: seq<Lot>, t: int, order: seq<nat>)
    requires InRange(lots, order)
    requires forall p :: 0 <= p < |order| ==> Draws(lots, t, order[p])
    ensures SumAt(lots, order) >= 0
    decreases |order|
  {
    if order != [] {
      SumAtNonNegative(lots, t, order[1..]);
    }
  }

  /** Changing a lot that `order` does not name leaves its sum alone. */
  lemma {:induction false} SumAtFrame(lots: seq<Lot>, order: seq<nat>, i: nat, l: Lot)
    requires InRange(lots, order) && i < |lots| && i !in order
    ensures SumAt(lots[i := l], order) == SumAt(lots, order)
  {
    if order != [] {
      SumAtFrame(lots, order[1..], i, l);
    }
  }

  /** Draining touches only the quantity field, and only of the lots in `order`. */
  lemma {:induction false} DrainFrame(lots: seq<Lot>, order: seq<nat>, remaining: int)
    requires InRange(lots, order)
    ensures forall i :: 0 <= i < |lots| ==>
      Drain(lots, order, remaining)[i] == lots[i].(quantity := Drain(lots, order, remaining)[i].quantity)
    ensures forall i :: 0 <= i < |lots| && i !in order ==> Drain(lots, order, remaining)[i] == lots[i]
    decreases |order|
  {
    if order != [] && remaining > 0 {
      var i := order[0];
      var have := lots[i].quantity;
      if have >= remaining {
        DrainFrame(lots[i := lots[i].(quantity := have - remaining)], order[1..], 0);
      } else {
        DrainFrame(lots[i := lots[i].(quantity := 0)], order[1..], remaining - have);
      }
    }
  }

  /** Every lot drawn on ends between zero and what it held. */
  lemma {:induction false} DrainBounds(lots: seq<Lot>, t: int, order: seq<nat>, remaining: int)
    requires InRange(lots, order) && Distinct(order)
    requires forall p :: 0 <= p < |order| ==> Draws(lots, t, order[p])
    ensures forall p :: 0 <= p < |order| ==>
      0 <= Drain(lots, order, remaining)[order[p]].quantity <= lots[order[p]].quantity
    decreases |order|
  {
    var r := Drain(lots, order, remaining);
    if order != [] && remaining > 0 {
      var i := order[0];
      var have := lots[i].quantity;
      var next := if have >= remaining then lots[i := lots[i].(quantity := have - remaining)]
                  else lots[i := lots[i].(quantity := 0)];
      var left := if have >= remaining then 0 else remaining - have;
      assert r == Drain(next, order[1..], left);
      DrainBounds(next, t, order[1..], left);
      DrainFrame(next, order[1..], left);
      assert i !in order[1..];
    }
  }

  /** Draining takes exactly `remaining` units from the type's total, and from what is
      available of it, provided the lots in `order` hold that many. */
  lemma {:induction false} DrainConsumes(lots: seq<Lot>, t: int, order: seq<nat>, remaining: int, sel: Selector)
    requires InRange(lots, order) && Distinct(order)
    requires forall p :: 0 <= p < |order| ==> Draws(lots, t, order[p])
    requires 0 <= remaining <= SumAt(lots, order)
    requires sel == OfType(t) || sel == AvailableOf(t)
    ensures Sum(Drain(lots, order, remaining), sel) == Sum(lots, sel) - remaining
    decreases |order|
  {
    if order != [] && remaining > 0 {
      var i := order[0];
      var have := lots[i].quantity;
      var taken := if have >= remaining then remaining else have;
      var next := lots[i := lots[i].(quantity := have - taken)];
      SumUpdate(lots, i, next[i], sel);
      assert i !in order[1..];
      SumAtFrame(lots, order[1..], i, next[i]);
      assert SumAt(lots, order) == have + SumAt(lots, order[1..]);
      SumAtNonNegative(lots, t, order[1..]);
      DrainConsumes(next, t, order[1..], remaining - taken, sel);
    }
  }

  /** A lot later in `order` is touched only once every earlier lot is empty. */
  lemma {:induction false} DrainInOrder(lots: seq<Lot>, order: seq<nat>, remaining: int)
    requires InRange(lots, order) && Distinct(order)
    ensures forall p, p' ::
      (0 <= p < p' < |order| && Drain(lots, order, remaining)[order[p']] != lots[order[p']]) ==>
      Drain(lots, order, remaining)[order[p]].quantity == 0
    decreases |order|
  {
    var r := Drain(lots, order, remaining);
    if order != [] && remaining > 0 {
      var i := order[0];
      var have := lots[i].quantity;
      if have >= remaining {
        var next := lots[i := lots[i].(quantity := have - remaining)];
        assert r == Drain(next, order[1..], 0) == next;
        forall p' | 0 < p' < |order| ensures r[order[p']] == lots[order[p']] {
          assert order[p'] != i;
        }
      } else {
        var next := lots[i := lots[i].(quantity := 0)];
        assert r == Drain(next, order[1..], remaining - have);
        DrainInOrder(next, order[1..], remaining - have);
        DrainFrame(next, order[1..], remaining - have);
        assert i !in order[1..];
        forall p, p' | 0 < p < p' < |order| && r[order[p']] != lots[order[p']]
          ensures r[order[p]].quantity == 0
        {
          assert order[p'] != i && order[p] == order[1..][p - 1] && order[p'] == order[1..][p' - 1];
        }
      }
    }
  }

  /** The lots after a sale of `q` units of type `t`: the oldest-first order drained by `q`. */
  function SaleResult(lots: seq<Lot>, t: int, q: int): seq<Lot> {
    Drain(lots, FifoOrder(lots, t, |lots|), q)
  }

  /** A covered sale takes exactly `q` units of the type, from its total and from what is
      available, and touches nothing but the quantities of the lots it draws on. */
  lemma SaleTakesExactly(lots: seq<Lot>, t: int, q: int)
    requires 0 < q <= Sum(lots, AvailableOf(t))
    ensures |SaleResult(lots, t, q)| == |lots|
    ensures Sum(SaleResult(lots, t, q), OfType(t)) == Sum(lots, OfType(t)) - q
    ensures Sum(SaleResult(lots, t, q), AvailableOf(t)) == Sum(lots, AvailableOf(t)) - q
    ensures forall i :: 0 <= i < |lots| ==>
      SaleResult(lots, t, q)[i] == lots[i].(quantity := SaleResult(lots, t, q)[i].quantity)
    ensures forall i :: 0 <= i < |lots| && !Draws(lots, t, i) ==> SaleResult(lots, t, q)[i] == lots[i]
  {
    var order := FifoOrder(lots, t, |lots|);
    assert lots[..|lots|] == lots;
    OldestFirstIsDistinct(lots, order);
    forall p | 0 <= p < |order| ensures Draws(lots, t, order[p]) {
      assert order[p] in order;
    }
    DrainConsumes(lots, t, order, q, OfType(t));
    DrainConsumes(lots, t, order, q, AvailableOf(t));
    DrainFrame(lots, order, q);
  }

  /** A sale leaves every lot it draws on between zero and what it held, so it never makes a
      quantity negative. */
  lemma SaleKeepsQuantitiesInBounds(lots: seq<Lot>, t: int, q: int)
    ensures forall i :: 0 <= i < |lots| && Draws(lots, t, i) ==>
      0 <= SaleResult(lots, t, q)[i].quantity <= lots[i].quantity
    ensures NonNegative(lots) ==> NonNegative(SaleResult(lots, t, q))
  {
    var order := FifoOrder(lots, t, |lots|);
    var r := SaleResult(lots, t, q);
    OldestFirstIsDistinct(lots, order);
    forall p | 0 <= p < |order| ensures Draws(lots, t, order[p]) {
      assert order[p] in order;
    }
    DrainBounds(lots, t, order, q);
    DrainFrame(lots, order, q);
    forall i | 0 <= i < |lots| && Draws(lots, t, i) ensures 0 <= r[i].quantity <= lots[i].quantity {
      var p :| 0 <= p < |order| && order[p] == i;
    }
  }

  /** Oldest first: a lot is touched only when every lot of the type added before it
      (or at the same moment with a lower id) has been emptied. */
  lemma SaleIsFifo(lots: seq<Lot>, t: int, q: int)
    ensures forall i, j ::
      (0 <= i < |lots| && 0 <= j < |lots| && Draws(lots, t, i) && Draws(lots, t, j) &&
       Before(lots, i, j) && SaleResult(lots, t, q)[j] != lots[j]) ==>
      SaleResult(lots, t, q)[i].quantity == 0
  {
    var order := FifoOrder(lots, t, |lots|);
    var r := SaleResult(lots, t, q);
    OldestFirstIsDistinct(lots, order);
    DrainInOrder(lots, order, q);
    forall i, j | 0 <= i < |lots| && 0 <= j < |lots| && Draws(lots, t, i) && Draws(lots, t, j) &&
                  Before(lots, i, j) && r[j] != lots[j]
      ensures r[i].quantity == 0
    {
      var p :| 0 <= p < |order| && order[p] == i;
      var p' :| 0 <= p' < |order| && order[p'] == j;
    }
  }

  /** Lot A (10 units, added on day 1) and lot B (5 units, day 2) of one type: selling 12
      empties A and leaves 3 in B. */
  lemma SaleExample()
    ensures var a := Lot(1, 7, 1, 10, 86400, 0);
      var b := Lot(2, 7, 1, 5, 2 * 86400, 0);
      SaleResult([a, b], 7, 12) == [a.(quantity := 0), b.(quantity := 3)]
  {
    var a := Lot(1, 7, 1, 10, 86400, 0);
    var b := Lot(2, 7, 1, 5, 2 * 86400, 0);
    var lots := [a, b];
    assert FifoOrder(lots, 7, 1) == [0];
    assert FifoOrder(lots, 7, 2) == Insert(lots, [0], 1) == [0, 1];
    assert Drain(lots, [0, 1], 12) == Drain(lots[0 := a.(quantity := 0)], [1], 2);
  }
}
