/**
  The database records (db/sqlc/models.go) and the parameter records of the
  generated queries the core calls. Ids and foreign keys are Go int64 values;
  the model keeps record fields as unbounded `int` because no arithmetic is
  done on them, and keeps the int32 fields (rating, category, limits and
  offsets) bounded because the handlers compute with them.
 */
module Models {
  import opened Ints

  /** A `time.Time`, kept opaque: the core only copies and stores instants. */
  type Time = int

  datatype Account = Account(id: int, owner: string, balance: int, createdAt: Time)

  datatype Category = Category(id: int, category: string, createdAt: Time)

  datatype Gacha = Gacha(id: int, accountId: int, itemId: int, createdAt: Time)

  /** A row of the ownership ledger. `exchangeAt` is the column UpdateGallery sets. */
  datatype Gallery = Gallery(id: int, ownerId: int, itemId: int, exchangeAt: Time, createdAt: Time)

  datatype Item = Item(id: int, itemName: string, rating: int32, itemUrl: string, categoryId: int32, createdAt: Time)

  /** One direction of a trade, as logged by CreateExchange. */
  datatype Exchange = Exchange(id: int, fromAccountId: int, toAccountId: int, itemId: int, createdAt: Time)

  // Go's zero values, which a failed query returns next to its error.
  const ZeroAccount := Account(0, "", 0, 0)
  const ZeroGacha := Gacha(0, 0, 0, 0)
  const ZeroGallery := Gallery(0, 0, 0, 0, 0)
  const ZeroItem := Item(0, "", 0, "", 0, 0)
  const ZeroExchange := Exchange(0, 0, 0, 0, 0)

  // Parameters of the queries the core calls.
  datatype CreateExchangeParams = CreateExchangeParams(fromAccountId: int64, toAccountId: int64, itemId: int64)
  datatype UpdateGalleryParams = UpdateGalleryParams(ownerId: int64, itemId: int64, ownerId2: int64, exchangeAt: Time)
  datatype CreateGachaParams = CreateGachaParams(accountId: int64, itemId: int)
  datatype CreateGalleryParams = CreateGalleryParams(ownerId: int, itemId: int)
}
