/** Rows of the four tables the ledger keeps: tree types, locations, stock lots and
    sale transactions. Money is held in integer cents, timestamps in integer seconds. */
module Models {

  datatype Option<T> = None | Some(value: T)

  /** A seedling species with the price it currently sells at. */
  datatype TreeType = TreeType(id: int, name: string, description: Option<string>, baseUnitPrice: int)

  /** A storage site. */
  datatype Location = Location(id: int, name: string, description: Option<string>)

  /** A stock lot (a row of the `stock` table): some units of one tree type at one location,
      acquired at `dateAdded` for `costPerSeedling` each. */
  datatype Lot = Lot(
    id: int,
    treeTypeId: int,
    locationId: int,
    quantity: int,
    dateAdded: int,
    costPerSeedling: int)

  /** An immutable record of a completed sale, with the unit price captured at sale time. */
  datatype Transaction = Transaction(
    id: int,
    treeTypeId: int,
    quantitySold: int,
    unitSalePrice: int,
    totalAmount: int,
    transactionDate: int)

  /** No lot holds a negative quantity. */
  predicate NonNegative(lots: seq<Lot>) {
    forall i :: 0 <= i < |lots| ==> lots[i].quantity >= 0
  }
}
