/** The stock ledger: tree types, locations, stock lots and the append-only list of sales,
    with the operations that add to and change them. Each operation is one atomic step,
    as each commits once at its end. */
module InventoryManager {
  import opened Models
  import opened Totals
  import opened Queries
  import opened Fifo
  import opened Moves

  class Ledger {
    var treeTypes: seq<TreeType>
    var locations: seq<Location>
    var lots: seq<Lot>
    var transactions: seq<Transaction>

    /** Every row's id is its position plus one: the store numbers rows from 1 and nothing
        is ever deleted. */
    ghost predicate Valid()
      reads this
    {
      (forall k :: 0 <= k < |treeTypes| ==> treeTypes[k].id == k + 1) &&
      (forall k :: 0 <= k < |locations| ==> locations[k].id == k + 1) &&
      (forall k :: 0 <= k < |lots| ==> lots[k].id == k + 1) &&
      (forall k :: 0 <= k < |transactions| ==> transactions[k].id == k + 1)
    }

    /** An empty store. */
    constructor ()
      ensures Valid()
      ensures treeTypes == [] && locations == [] && lots == [] && transactions == []
    {
      treeTypes, locations, lots, transactions := [], [], [], [];
    }

    /** create_tree_type: the store refuses a second type with the same name. */
    method CreateTreeType(name: string, basePrice: int, description: Option<string>) returns (r: Option<TreeType>)
      requires Valid()
      modifies this
      ensures Valid()
      ensures locations == old(locations) && lots == old(lots) && transactions == old(transactions)
      ensures r.None? <==> exists k :: 0 <= k < |old(treeTypes)| && old(treeTypes)[k].name == name
      ensures r.None? ==> treeTypes == old(treeTypes)
      ensures r.Some? ==> r.value == TreeType(|old(treeTypes)| + 1, name, description, basePrice)
      ensures r.Some? ==> treeTypes == old(treeTypes) + [r.value]
    {
      if exists k :: 0 <= k < |treeTypes| && treeTypes[k].name == name {
        return None;
      }
      var tt := TreeType(|treeTypes| + 1, name, description, basePrice);
      treeTypes := treeTypes + [tt];
      r := Some(tt);
    }

    /** get_tree_type_by_id. */
    function TreeTypeById(id: int): (r: Option<TreeType>)
      reads this
      requires Valid()
      ensures r.Some? ==> r.value in treeTypes && r.value.id == id
      ensures r.None? ==> forall k :: 0 <= k < |treeTypes| ==> treeTypes[k].id != id
    {
      if 1 <= id <= |treeTypes| then Some(treeTypes[id - 1]) else None
    }

    /** create_location: the store refuses a second location with the same name. */
    method CreateLocation(name: string, description: Option<string>) returns (r: Option<Location>)
      requires Valid()
      modifies this
      ensures Valid()
      ensures treeTypes == old(treeTypes) && lots == old(lots) && transactions == old(transactions)
      ensures r.None? <==> exists k :: 0 <= k < |old(locations)| && old(locations)[k].name == name
      ensures r.None? ==> locations == old(locations)
      ensures r.Some? ==> r.value == Location(|old(locations)| + 1, name, description)
      ensures r.Some? ==> locations == old(locations) + [r.value]
    {
      if exists k :: 0 <= k < |locations| && locations[k].name == name {
        return None;
      }
      var loc := Location(|locations| + 1, name, description);
      locations := locations + [loc];
      r := Some(loc);
    }

    /** get_location_by_id. */
    function LocationById(id: int): (r: Option<Location>)
      reads this
      requires Valid()
      ensures r.Some? ==> r.value in locations && r.value.id == id
      ensures r.None? ==> forall k :: 0 <= k < |locations| ==> locations[k].id != id
    {
      if 1 <= id <= |locations| then Some(locations[id - 1]) else None
    }

    /** get_stock_by_id. */
    function StockById(id: int): (r: Option<Lot>)
      reads this
      requires Valid()
      ensures r.Some? ==> r.value in lots && r.value.id == id && r.value == lots[id - 1]
      ensures r.None? ==> forall k :: 0 <= k < |lots| ==> lots[k].id != id
    {
      if 1 <= id <= |lots| then Some(lots[id - 1]) else None
    }

    /** add_stock_entry: always a new lot, never merged into an existing one, even one of the
        same type at the same location. The ids are not checked against the other tables. */
    method AddStockEntry(treeTypeId: int, locationId: int, quantity: int, costPerSeedling: int, now: int)
      returns (r: Lot)
      requires Valid()
      modifies this
      ensures Valid()
      ensures treeTypes == old(treeTypes) && locations == old(locations) && transactions == old(transactions)
      ensures r == Lot(|old(lots)| + 1, treeTypeId, locationId, quantity, now, costPerSeedling)
      ensures lots == old(lots) + [r]
      ensures forall loc :: (Sum(lots, OfTypeAt(treeTypeId, loc)) ==
        Sum(old(lots), OfTypeAt(treeTypeId, loc)) + (if loc == locationId then quantity else 0))
      ensures NonNegative(old(lots)) && quantity >= 0 ==> NonNegative(lots)
    {
      r := Lot(|lots| + 1, treeTypeId, locationId, quantity, now, costPerSeedling);
      forall loc ensures Sum(lots + [r], OfTypeAt(treeTypeId, loc)) ==
        Sum(lots, OfTypeAt(treeTypeId, loc)) + (if loc == locationId then quantity else 0)
      {
        SumAppend(lots, r, OfTypeAt(treeTypeId, loc));
      }
      lots := lots + [r];
    }

    /** update_stock_quantity: overwrites one lot's quantity with any value, unchecked. */
    method UpdateStockQuantity(stockId: int, newQuantity: int) returns (r: Option<Lot>)
      requires Valid()
      modifies this
      ensures Valid()
      ensures treeTypes == old(treeTypes) && locations == old(locations) && transactions == old(transactions)
      ensures r.None? <==> old(StockById(stockId)).None?
      ensures r.None? ==> lots == old(lots)
      ensures r.Some? ==> lots == old(lots)[stockId - 1 := old(lots)[stockId - 1].(quantity := newQuantity)]
      ensures r.Some? ==> r.value == lots[stockId - 1]
      ensures NonNegative(old(lots)) && newQuantity >= 0 ==> NonNegative(lots)
    {
      var found := StockById(stockId);
      if found.None? {
        return None;
      }
      lots := lots[stockId - 1 := found.value.(quantity := newQuantity)];
      r := Some(lots[stockId - 1]);
    }

    /** move_stock_quantity: takes `quantityToMove` units out of lot `fromStockId` and adds them
        to the first lot of the same type at `toLocationId`, or to a new lot there that keeps
        the source's cost. Refused, with nothing changed, when the source lot is missing or
        holds too little. Returns the source and destination lots as they end up. */
    method MoveStockQuantity(fromStockId: int, toLocationId: int, quantityToMove: int, now: int)
      returns (r: Option<(Lot, Lot)>)
      requires Valid()
      requires quantityToMove > 0
      modifies this
      ensures Valid()
      ensures treeTypes == old(treeTypes) && locations == old(locations) && transactions == old(transactions)
      ensures r.None? <==>
        old(StockById(fromStockId)).None? || old(StockById(fromStockId)).value.quantity < quantityToMove
      ensures r.None? ==> lots == old(lots)
      ensures r.Some? ==> lots == MoveLots(old(lots), fromStockId - 1, toLocationId, quantityToMove, now)
      ensures r.Some? ==>
        var d := Destination(old(lots), fromStockId - 1, toLocationId);
        d < |lots| && r.value == (lots[fromStockId - 1], lots[d])
      ensures forall t :: Sum(lots, OfType(t)) == Sum(old(lots), OfType(t))
      ensures NonNegative(old(lots)) ==> NonNegative(lots)
    {
      var from := StockById(fromStockId);
      if from.None? || from.value.quantity < quantityToMove {
        return None;
      }
      var s := fromStockId - 1;
      ghost var before := lots;
      var d := Destination(lots, s, toLocationId);
      if d < |lots| {
        lots := lots[d := lots[d].(quantity := lots[d].quantity + quantityToMove)];
      } else {
        var created := Lot(|lots| + 1, from.value.treeTypeId, toLocationId, quantityToMove, now,
                           from.value.costPerSeedling);
        lots := lots + [created];
      }
      lots := lots[s := lots[s].(quantity := lots[s].quantity - quantityToMove)];
      assert lots == MoveLots(before, s, toLocationId, quantityToMove, now);
      MoveEffect(before, s, toLocationId, quantityToMove, now);
      MoveConserves(before, s, toLocationId, quantityToMove, now);
      if NonNegative(before) {
        MoveKeepsNonNegative(before, s, toLocationId, quantityToMove, now);
      }
      r := Some((lots[s], lots[d]));
    }

    /** The loop of record_sale: walks the lots in `order`, emptying each in turn until
        `quantity` units have been taken. */
    method DrainOldestFirst(treeTypeId: int, order: seq<nat>, quantity: int)
      requires InRange(lots, order) && 0 <= quantity
      requires forall p :: 0 <= p < |order| ==> lots[order[p]].treeTypeId == treeTypeId
      modifies this`lots
      ensures lots == Drain(old(lots), order, quantity)
    {
      var remaining := quantity;
      var j := 0;
      assert order[j..] == order;
      while j < |order|
        invariant 0 <= j <= |order|
        invariant |lots| == |old(lots)|
        invariant forall k :: 0 <= k < |lots| ==> lots[k].treeTypeId == old(lots)[k].treeTypeId
        invariant remaining >= 0
        invariant remaining + (Sum(old(lots), OfType(treeTypeId)) - Sum(lots, OfType(treeTypeId))) == quantity
        invariant Drain(lots, order[j..], remaining) == Drain(old(lots), order, quantity)
      {
        if remaining <= 0 {
          break;
        }
        var i := order[j];
        var taken := if lots[i].quantity >= remaining then remaining else lots[i].quantity;
        DrainStep(lots, order, j, remaining);
        SumUpdate(lots, i, lots[i].(quantity := lots[i].quantity - taken), OfType(treeTypeId));
        lots := lots[i := lots[i].(quantity := lots[i].quantity - taken)];
        remaining := remaining - taken;
        j := j + 1;
      }
      DrainDone(lots, order, j, remaining);
    }

    /** record_sale: refused, with nothing changed, when the tree type is missing or its lots
        hold fewer than `quantitySold` units between them. Otherwise drains the type's lots
        oldest first and appends one transaction at the type's current base price. */
    method RecordSale(treeTypeId: int, quantitySold: int, now: int) returns (r: Option<Transaction>)
      requires Valid()
      requires quantitySold > 0
      modifies this
      ensures Valid()
      ensures treeTypes == old(treeTypes) && locations == old(locations)
      ensures r.None? <==>
        TreeTypeById(treeTypeId).None? || Sum(old(lots), AvailableOf(treeTypeId)) < quantitySold
      ensures r.None? ==> lots == old(lots) && transactions == old(transactions)
      ensures r.Some? ==> lots == SaleResult(old(lots), treeTypeId, quantitySold)
      ensures r.Some? ==>
        var price := TreeTypeById(treeTypeId).value.baseUnitPrice;
        r.value == Transaction(|old(transactions)| + 1, treeTypeId, quantitySold, price, price * quantitySold, now) &&
        transactions == old(transactions) + [r.value]
      ensures r.Some? ==> Sum(lots, OfType(treeTypeId)) == Sum(old(lots), OfType(treeTypeId)) - quantitySold
      ensures NonNegative(old(lots)) ==> NonNegative(lots)
    {
      var treeType := TreeTypeById(treeTypeId);
      if treeType.None? {
        return None;
      }
      var order := FifoOrder(lots, treeTypeId, |lots|);
      assert lots[..|lots|] == lots;
      forall p | 0 <= p < |order| ensures lots[order[p]].treeTypeId == treeTypeId {
        assert order[p] in order;
      }
      var totalAvailable := SumAt(lots, order);
      if totalAvailable < quantitySold {
        return None;
      }
      DrainOldestFirst(treeTypeId, order, quantitySold);
      SaleTakesExactly(old(lots), treeTypeId, quantitySold);
      SaleKeepsQuantitiesInBounds(old(lots), treeTypeId, quantitySold);
      var price := treeType.value.baseUnitPrice;
      var tx := Transaction(|transactions| + 1, treeTypeId, quantitySold, price, price * quantitySold, now);
      transactions := transactions + [tx];
      r := Some(tx);
    }
  }
}
