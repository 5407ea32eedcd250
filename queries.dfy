/** The read side of the ledger: the first lot of a type at a location, and the filtered
    listings of lots and of sales. None of them changes anything. */
module Queries {
  import opened Models

  predicate OfTypeAtLocation(l: Lot, t: int, loc: int) {
    l.treeTypeId == t && l.locationId == loc
  }

  /** The position of the first lot at or after `from` of type `t` at location `loc`. */
  function FirstFrom(lots: seq<Lot>, t: int, loc: int, from: nat): (r: Option<nat>)
    requires from <= |lots|
    ensures r.Some? ==> from <= r.value < |lots| && OfTypeAtLocation(lots[r.value], t, loc)
    ensures r.Some? ==> forall j :: from <= j < r.value ==> !OfTypeAtLocation(lots[j], t, loc)
    ensures r.None? ==> forall j :: from <= j < |lots| ==> !OfTypeAtLocation(lots[j], t, loc)
    decreases |lots| - from
  {
    if from == |lots| then None
    else if OfTypeAtLocation(lots[from], t, loc) then Some(from)
    else FirstFrom(lots, t, loc, from + 1)
  }

  /** `filter(tree_type_id == t, location_id == loc).first()`: the lowest-positioned lot of
      type `t` at `loc`, if there is one. */
  function FirstOfTypeAt(lots: seq<Lot>, t: int, loc: int): (r: Option<nat>)
    ensures r.Some? ==> r.value < |lots| && OfTypeAtLocation(lots[r.value], t, loc)
    ensures r.Some? ==> forall j :: 0 <= j < r.value ==> !OfTypeAtLocation(lots[j], t, loc)
    ensures r.None? ==> forall j :: 0 <= j < |lots| ==> !OfTypeAtLocation(lots[j], t, loc)
  {
    FirstFrom(lots, t, loc, 0)
  }

  /** The elements of `s` that `keep` accepts, in their original order. */
  function Filter<T(!new)>(s: seq<T>, keep: T -> bool): (r: seq<T>)
    ensures forall x :: multiset(r)[x] == if keep(x) then multiset(s)[x] else 0
    ensures forall k :: 0 <= k < |r| ==> keep(r[k])
    decreases |s|
  {
    if s == [] then []
    else
      var n := |s| - 1;
      assert s == s[..n] + [s[n]];
      Filter(s[..n], keep) + (if keep(s[n]) then [s[n]] else [])
  }

  /** Python truthiness of an optional id: both `None` and `0` mean "no filter". */
  predicate Truthy(id: Option<int>) {
    id.Some? && id.value != 0
  }

  predicate Selected(l: Lot, treeTypeId: Option<int>, locationId: Option<int>) {
    (Truthy(treeTypeId) ==> l.treeTypeId == treeTypeId.value) &&
    (Truthy(locationId) ==> l.locationId == locationId.value)
  }

  /** get_all_stock_entries: the lots matching the filters that are present and non-zero. */
  function StockEntries(lots: seq<Lot>, treeTypeId: Option<int>, locationId: Option<int>): (r: seq<Lot>)
    ensures forall l :: multiset(r)[l] == if Selected(l, treeTypeId, locationId) then multiset(lots)[l] else 0
    ensures forall l :: l in r <==> l in lots && Selected(l, treeTypeId, locationId)
  {
    Filter(lots, (l: Lot) => Selected(l, treeTypeId, locationId))
  }

  /** With both filters absent or zero, every lot is listed, in store order. */
  lemma {:induction false} UnfilteredListsEverything(lots: seq<Lot>, treeTypeId: Option<int>, locationId: Option<int>)
    requires !Truthy(treeTypeId) && !Truthy(locationId)
    ensures StockEntries(lots, treeTypeId, locationId) == lots
  {
    if lots != [] {
      var n := |lots| - 1;
      UnfilteredListsEverything(lots[..n], treeTypeId, locationId);
      assert lots == lots[..n] + [lots[n]];
    }
  }

  /** Seconds in a day: a date filter `d` names the interval [d * Day, (d + 1) * Day). */
  const Day := 86400

  /** The sales-history window: from the start of `startDay` up to, but excluding, the start
      of the day after `endDay`; an absent bound does not filter. */
  predicate InWindow(tx: Transaction, startDay: Option<int>, endDay: Option<int>) {
    (startDay.Some? ==> startDay.value * Day <= tx.transactionDate) &&
    (endDay.Some? ==> tx.transactionDate < (endDay.value + 1) * Day)
  }

  predicate NewestFirst(txs: seq<Transaction>) {
    forall j, k :: 0 <= j < k < |txs| ==> txs[j].transactionDate >= txs[k].transactionDate
  }

  /** Places `tx` after every transaction at least as recent. */
  function InsertByDate(txs: seq<Transaction>, tx: Transaction): (r: seq<Transaction>)
    requires NewestFirst(txs)
    ensures NewestFirst(r)
    ensures multiset(r) == multiset(txs) + multiset{tx}
    ensures |r| == |txs| + 1 && (r[0] == tx || (txs != [] && r[0] == txs[0]))
    decreases |txs|
  {
    if txs == [] then [tx]
    else if txs[0].transactionDate < tx.transactionDate then [tx] + txs
    else
      assert txs == [txs[0]] + txs[1..];
      var rest := InsertByDate(txs[1..], tx);
      assert rest[0].transactionDate <= txs[0].transactionDate;
      [txs[0]] + rest
  }

  /** Sorts by transaction date, most recent first. */
  function SortNewestFirst(txs: seq<Transaction>): (r: seq<Transaction>)
    ensures NewestFirst(r)
    ensures multiset(r) == multiset(txs)
    decreases |txs|
  {
    if txs == [] then []
    else
      assert txs == [txs[0]] + txs[1..];
      InsertByDate(SortNewestFirst(txs[1..]), txs[0])
  }

  /** get_all_transactions: exactly the transactions inside the window, newest first. */
  function TransactionsBetween(txs: seq<Transaction>, startDay: Option<int>, endDay: Option<int>): (r: seq<Transaction>)
    ensures NewestFirst(r)
    ensures forall tx :: multiset(r)[tx] == if InWindow(tx, startDay, endDay) then multiset(txs)[tx] else 0
  {
    SortNewestFirst(Filter(txs, (tx: Transaction) => InWindow(tx, startDay, endDay)))
  }

  /** A sale made at any moment of the end day is listed: the end bound covers the whole day. */
  lemma EndDayIncluded(txs: seq<Transaction>, tx: Transaction, startDay: Option<int>, endDay: int)
    requires tx in txs && InWindow(tx, startDay, None)
    requires endDay * Day <= tx.transactionDate < (endDay + 1) * Day
    ensures tx in TransactionsBetween(txs, startDay, Some(endDay))
  {
    var r := TransactionsBetween(txs, startDay, Some(endDay));
    assert multiset(r)[tx] == multiset(txs)[tx];
  }
}
