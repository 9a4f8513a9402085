# Gacha backend: a Dafny model

This project models the core of a Go web backend for a "gacha" (capsule toy)
game. Accounts draw random items from a catalogue. Each draw is recorded as a
gacha and as a row of an ownership ledger, the galleries table. Two accounts
can trade items through an exchange transaction that logs both directions and
reassigns the ledger rows.

The model covers:

- **The store** (`Store.SqlStore`, a class over the five tables it touches).
  It holds the queries the core calls and the `ExchangeTx` transaction, with
  `execTx`'s begin, rollback and commit. `Ledger` states the transaction's
  effect as functions and proves what that effect is:
  - all or nothing;
  - the logged pair of exchange records;
  - the swap of the two ledger rows;
  - ownership as the condition for success;
  - the order of the steps;
  - conservation of ownership records.
- **The HTTP handlers** of the item, account, gallery, category, gacha and
  exchange APIs. A handler that makes one store call is a function of
  - the decoded request,
  - the authenticated payload where it reads one,
  - the store call, given as a function from its parameters to the store's reply.
  It yields the call it made and the response it wrote. `CreateGachaApi` and
  `CreateExchangeApi` make several dependent calls and write to the store; they
  are methods on `SqlStore`, proved equal to a specification function.
- **The authentication middleware**: `strings.Fields`, the case-insensitive
  bearer scheme, and the token maker as a parameter.
- **The random generators** of `utils/random.go`.

The gin binding tags are written out as predicates:
- `required` on a number means non-zero;
- `required` on a string means non-empty;
- `min` and `max` are bounds;
- `alphanum` admits ASCII letters and digits only.

A request that fails to decode is `Input.Undecodable`.

Pagination computes `(PageID - 1) * PageSize` in int32 arithmetic, which wraps
around (`Paging.Offset`).

Database failures are fault arguments (`Option<DbError>`), one per call. A
property proved for all fault values holds whichever calls fail. Outcomes that
follow from the data are computed from the tables:
- `ErrNoRows` for an id that is absent;
- `ErrNoRows` for an UpdateGallery that matches no row.

Randomness is a nondeterministic choice in its range. The clock is a
parameter `now`.

The SQL text of UpdateGallery is not part of this model. It is modelled from
its parameter record as the statement those parameters name:
- every row keyed (OwnerID, ItemID) gets owner OwnerID_2 and the exchange time;
- the first such row is returned;
- no matching row is `ErrNoRows`.

`db/sqlc/models.go` declares a `Gallery` without an exchange time and no
`Exchange` record. The code the core calls uses both: UpdateGallery takes an
`ExchangeAt` value, and CreateExchange returns an `Exchange`. The model adds
both. `Gallery.exchangeAt` is the column UpdateGallery sets, and `Exchange` is
one logged direction of a trade.

Consequences the lemmas make explicit:
- The exchange handler checks only that the from-account belongs to the
  caller. UpdateGallery's match on (owner, item) is what makes the
  transaction fail, and roll back, when the from-account does not hold the
  item (`Ledger.SuccessNeedsOwnership`).
- Exchanging an item for the same item succeeds when the from-account holds
  it, logs two records and leaves every matching row with the from-account
  (`Ledger.SameItemGoesToFrom`, `Ledger.SameItemExchangeWithoutPartnerItem`).
- The gacha draw ranges over `0 .. len(items)` and is used as an item id. Over
  a catalogue with ids 1 to n, the draw 0 names no item and the request fails
  with 500 (`Gachas.SequentialCatalogueDraws`).
- The exchange list handlers bound the page size above but not below, so a
  negative size reaches the store as the LIMIT
  (`Exchanges.NegativePageSizeAdmitted`).

## Model

| member | source | states |
|---|---|---|
| Paging.Offset | api/gachas.go:128-131 | the int32 offset equals the exact `(PageID - 1) * PageSize` whenever that value fits in an int32 |
| Paging.NextPageFollows | api/gachas.go:128-131 | without overflow, page p + 1 starts exactly PageSize rows after page p |
| Paging.PagesDisjoint | api/gachas.go:128-131 | without overflow, two different pages select disjoint row windows |
| Paging.LargePageWrapsOffset | api/gachas.go:116-131 | a page number that passes `min=1` (214748366 with size 10) wraps the offset to a negative int32 |
| Ledger.FirstMatch | db/sqlc/store.go:85-90 | finds no row exactly when no ledger row is keyed (owner, item); otherwise it finds the first such row |
| Ledger.ReassignAll | db/sqlc/store.go:85-90 | every row keyed (OwnerID, ItemID) gets the new owner and exchange time; all other rows, and the row count, are unchanged; if the old owner held the item the new owner now does, and (for a different new owner) the old owner no longer does |
| Ledger.UpdateGalleryRows | db/sqlc/store.go:85-100 | fails, with ErrNoRows, exactly when no row is keyed (OwnerID, ItemID); on success the new table is ReassignAll's, and the returned row is the first matching row, reassigned to the new owner and stamped with the exchange time, as it stands in the new table |
| Ledger.ExecTxError | db/sqlc/store.go:28-44 | execTx reports no error exactly when the closure and the commit both succeed |
| Ledger.ExchangeTransaction | db/sqlc/store.go:61-109 | whenever ExchangeTx returns an error, the tables are exactly those before BeginTx |
| Ledger.ExecTxOutcomes | db/sqlc/store.go:28-44 | a failed BeginTx returns its error and the closure never runs; a failed closure returns its error, or the combined txErr/rbErr error when the rollback fails, and keeps nothing; a successful closure returns exactly Commit's result; the partially filled result is always returned |
| Ledger.FirstFailureStops | db/sqlc/store.go:64-106 | steps run in the order exchange1, exchange2, gallery1, gallery2; the first failing step returns its error and leaves the later result fields and the ledger untouched |
| Ledger.TransactionReturnsRows | db/sqlc/store.go:85-103 | for two different items, success returns Gallery1, a row of item1 now owned by `to`, and Gallery2, a row of item2 now owned by `from`, both stamped with the exchange time and both present in the final ledger |
| Ledger.TransactionLogsPair | db/sqlc/store.go:67-83 | on success the log grows by exactly two records: (from, to, item1), then (to, from, item2), with consecutive ids; these are the returned Exchange1 and Exchange2 |
| Ledger.ClosureSameRows | db/sqlc/store.go:85-103 | the closure never adds or removes a ledger row, and never changes a row's id, item or creation time |
| Ledger.ClosureSwaps | db/sqlc/store.go:85-103 | for two different items, a successful closure gives the (from, item1) rows to `to` and the (to, item2) rows to `from`, both stamped with the exchange time, and changes nothing else |
| Ledger.TransactionAtomic | db/sqlc/store.go:28-109 | all or nothing: with an error the tables are unchanged; without one the log grew by the pair and the ledger is swapped; the row count is always preserved |
| Ledger.SuccessNeedsOwnership | db/sqlc/store.go:85-103 | success implies that no call failed and the from-account held item1; for different items, the to-account held item2 as well |
| Ledger.OwnershipSuffices | db/sqlc/store.go:85-103 | with no failing call and two different items, both holdings guarantee success |
| Ledger.CountItemSameRows | db/sqlc/store.go:85-103 | reassigning owners never changes how many ledger rows reference an item |
| Ledger.TransactionConservesItems | db/sqlc/store.go:61-109 | however the exchange ends, no item's ownership records are created or destroyed |
| Ledger.SameItemGoesToFrom | db/sqlc/store.go:85-103 | when both items are the same, success leaves every row of that item held by either account with the from-account |
| Ledger.SameItemStaleGallery1 | db/sqlc/store.go:85-103 | when both items are the same and the accounts differ, a successful exchange returns a Gallery1 showing the item with `to`, while no row of the final ledger says `to` holds it: the returned row is stale |
| Ledger.SameItemExchangeWithoutPartnerItem | db/sqlc/store.go:61-109 | an exchange of item 10 for item 10 with a partner who holds nothing succeeds, logs two records and leaves the item with its owner |
| Ledger.PlainTradeScenario | db/sqlc/store.go:61-109 | a trade of item 10 (account 1) for item 20 (account 2) swaps the two rows and logs exchanges 1 and 2 |
| Store.Window | api/gachas.go:28-33 | LIMIT/OFFSET selects at most `limit` rows, starting at row `offset` of the table, in table order |
| Store.GetItemCall | api/gachas.go:43-48 | an injected fault is returned unchanged; without one, the call succeeds exactly when the catalogue has an item with the id, returns such an item, and otherwise fails with ErrNoRows |
| Store.SqlStore.constructor | db/sqlc/store.go:15-25 | a store over given accounts and catalogue, with empty gacha, gallery and exchange tables |
| Store.SqlStore.GetAccount | api/exchanges.go:27-35 | returns the account with the id, ErrNoRows when there is none, or the injected error with the zero account |
| Store.SqlStore.GetItem | api/gachas.go:43-48 | returns the item with the id, ErrNoRows when there is none, or the injected error with the zero item |
| Store.SqlStore.ListItemsById | api/gachas.go:28-38 | returns the LIMIT/OFFSET window of the catalogue, or the injected error with no rows |
| Store.SqlStore.CreateGacha | api/gachas.go:51-67 | appends one gacha for the given account and item with the next id; a failure writes nothing |
| Store.SqlStore.CreateGallery | api/gachas.go:70-86 | appends one ledger row for the given owner and item with the next id; a failure writes nothing |
| Store.SqlStore.CreateExchange | db/sqlc/store.go:67-83 | appends one exchange record with the given direction and item; a failure writes nothing |
| Store.SqlStore.UpdateGallery | db/sqlc/store.go:85-103 | its search loop and update have exactly UpdateGalleryRows's effect; a failure returns the zero gallery and changes nothing |
| Store.SqlStore.BeginTx | db/sqlc/store.go:29-32 | the transaction starts from the current tables; BeginTx's error is returned |
| Store.SqlStore.Rollback | db/sqlc/store.go:36-41 | the tables return to the snapshot, whether or not the rollback reports an error |
| Store.SqlStore.Commit | db/sqlc/store.go:43 | a successful commit keeps the writes; a failed one leaves the snapshot |
| Store.SqlStore.ExchangeSteps | db/sqlc/store.go:64-106 | the closure's four writes have exactly ExchangeClosure's effect on the tables and on the result |
| Store.SqlStore.ExchangeTx | db/sqlc/store.go:61-109 | equals ExchangeTransaction; an error leaves both tables unchanged; success logs the pair, swaps the ledger for different items, and implies the from-account held item1; for different items the returned Gallery1 and Gallery2 are rows of the final ledger, item1 with `to` and item2 with `from`, stamped with the exchange time |
| Random.Int63n | utils/random.go:17-19 | a value in [0, n), for n > 0 |
| Random.Intn | utils/random.go:29 | a value in [0, n), for n > 0 |
| Random.RandomInt | utils/random.go:17-19 | for min <= max the value lies in [min, max] |
| Random.RandomString | utils/random.go:22-33 | exactly n characters (none for n <= 0), each in 'a'..'z' |
| Random.RandomEmail | utils/random.go:36-38 | six lower-case letters followed by "@email.com" |
| Random.RandomItemName | utils/random.go:40-42 | "srrrs-" followed by five lower-case letters |
| Random.RandomItemUrl | utils/random.go:44-46 | "http://srrrs/" followed by ten lower-case letters |
| Random.RandomCategory | utils/random.go:48-50 | six lower-case letters |
| Middleware.Fields | api/middleware.go:28 | every field is non-empty and contains no white space; together the fields hold exactly the non-space characters of the header, in order |
| Middleware.FieldsOfInterleave | api/middleware.go:28 | any text made of non-empty, space-free words with white space (any characters, any number) between them, and possibly before and after, splits into exactly those words |
| Middleware.FieldsSeparated | api/middleware.go:28 | every header is its fields interleaved with white-space runs that are non-empty between fields: the fields are the maximal non-space runs |
| Middleware.FieldsJoinSpaced | api/middleware.go:28 | splitting words joined by single spaces gives the words back |
| Middleware.LeadingSpaceIgnored | api/middleware.go:28 | leading white space does not change the fields |
| Middleware.ToLower | api/middleware.go:35 | keeps the length, leaves no ASCII capital, and changes a character only by turning a capital into its lower-case letter |
| Middleware.ToLowerIsBearer | api/middleware.go:35-36 | a scheme lower-cases to "bearer" exactly when it has six characters, each the letter of "bearer" in lower or upper case |
| Middleware.Authenticate | api/middleware.go:20-51 | every abort is 401; an empty header fails as missing; the request proceeds exactly when there are at least two fields, the lower-cased first field is "bearer" and the second field verifies; the payload is then stored under "authorization_payload" |
| Middleware.SchemeCaseInsensitive | api/middleware.go:35-47 | any letter case of "bearer" followed by a token is passed to the token maker; the outcome is its payload or a 401 with its error |
| Middleware.ExtraFieldsIgnored | api/middleware.go:28-43 | only the second field is verified; fields after it do not change the outcome |
| Middleware.BlankHeaderIsBadFormat | api/middleware.go:21-33 | a header of white space alone passes the presence check and fails the format check |
| Middleware.TokenWithoutScheme | api/middleware.go:28-33 | a lone token without a scheme is rejected before verification |
| Items.CreateItemApi | api/items.go:12-47 | calls the store exactly when the name is non-empty and alphanumeric, the rating is in 1..7, and the URL and category are present; the parameters are the request's fields; 403 for a unique violation, 500 otherwise, 400 before the call |
| Items.GetItemApi | api/items.go:49-71 | calls GetItem with the id exactly when it is non-zero; 404 for ErrNoRows, 500 for other errors, 400 before the call |
| Items.ListItemByCategoryIdApi | api/items.go:73-103 | calls the store exactly when the category is set, the page is at least 1 and the size at least 1; the parameters are (category, PageSize, wrapped offset); 404 for ErrNoRows |
| Items.ListItemsApi | api/items.go:105-223 | the four list handlers: call exactly when the page is at least 1 and the size at least 1; Limit = PageSize and Offset = (PageID - 1) * PageSize; 404 for ErrNoRows |
| Items.UpdateItemApi | api/items.go:225-259 | as for creation, plus a non-zero id; 404 for ErrNoRows and 500 for other errors |
| Items.DeleteItemApi | api/items.go:261-283 | a bind failure is 404, not 400; success is 200 with "Item deleted"; 404 for ErrNoRows, 500 otherwise |
| Items.DeleteItemMissingLooksUnbound | api/items.go:265-280 | a missing id and a missing item get the same response |
| Items.CreateItemUnknownCategoryIs500 | api/items.go:33-44 | a foreign-key violation is answered 500, not 403 |
| Items.GeneratedItemNameRejected | utils/random.go:40-42 | names from RandomItemName contain '-', fail `alphanum`, and CreateItemApi rejects them with 400 |
| Items.GeneratedStringAccepted | utils/random.go:22-33 | a non-empty RandomString passes `required,alphanum` |
| Accounts.BalanceToInt64 | api/accounts.go:28 | the float balance is truncated toward zero whenever the result fits in an int64 |
| Accounts.CreateAccountApi | api/accounts.go:13-45 | calls the store exactly when the owner is non-empty and the balance non-zero; the owner is the authenticated user; the balance is truncated; 403 for foreign-key or unique violations |
| Accounts.CreateAccountIgnoresRequestOwner | api/accounts.go:25-29 | two requests that differ only in the owner they name behave identically |
| Accounts.FractionalBalanceStoredAsZero | api/accounts.go:13-29 | a balance of 0.5 passes `required` and is stored as 0 |
| Accounts.GetAccountApi | api/accounts.go:47-69 | calls GetAccount exactly when the id is non-zero; 404 for ErrNoRows, 500 otherwise |
| Accounts.ListAccountsApi | api/accounts.go:71-97 | calls exactly when the page is at least 1 and the size at least 10; filters on the authenticated user's name; every store error is 500 |
| Accounts.UpdateAccountApi | api/accounts.go:99-149 | UpdateAccountApi and UpdateBalanceApi: call exactly when id and balance are non-zero, with those two values; every store error is 500 |
| Accounts.UpdateToZeroBalanceRejected | api/accounts.go:99-109 | a balance cannot be set to zero |
| Accounts.DeleteAccountApi | api/accounts.go:155-169 | as written: calls the store only when URI parameters named "ID" and "Balance" are both non-zero |
| Accounts.DeleteAccountAlwaysRejects | api/accounts.go:155-160 | on the route's only parameter "id", every delete request is answered 400 and never reaches the store |
| Accounts.DeleteAccountApiFixed | api/accounts.go:151-153 | bound as DeleteAccountRequest: calls DeleteAccount exactly when "id" is non-zero, with that id; 200 on success, 500 on error |
| Accounts.DeleteAccountFixedDeletes | api/accounts.go:151-169 | with the declared request type, a request on the route deletes the account it names |
| Galleries.GetGalleryApi | api/galleries.go:11-33 | calls GetGallery exactly when the id is non-zero; ErrNoRows is 403, not 404; other errors are 500 |
| Galleries.ListGalleriesApi | api/galleries.go:35-97 | both list handlers: call exactly when the key is at least 1, the page at least 1 and the size at least 10; the parameters are (key, PageSize, wrapped offset); 404 for ErrNoRows |
| Galleries.SmallPagesRejected | api/galleries.go:35-39 | a page size of 9 is refused |
| Categories.CreateCategoryApi | api/categories.go:12-37 | calls exactly when the name is non-empty; 403 for unique or foreign-key violations, 500 otherwise |
| Categories.GetCategoryApi | api/categories.go:39-61 | calls exactly when the name is non-empty; 404 for ErrNoRows |
| Categories.ListCategoryApi | api/categories.go:63-91 | calls exactly when the page is at least 1 and the size at least 10; Limit and wrapped Offset; 404 for ErrNoRows |
| Gachas.DrawBound | api/gachas.go:42 | the Int63n bound is the listed catalogue size plus one: between 1 and 1001 |
| Gachas.CreateGachaApi | api/gachas.go:19-90 | the draw lies in [0, len(items)]; the response and the new gacha and gallery tables are CreateGachaOutcome's for that draw |
| Gachas.GachaSuccess | api/gachas.go:51-89 | a 200 means no call failed and the item whose id is the draw exists; one gacha and one ledger row were appended for (account, item); the response is that ledger row |
| Gachas.BadRequestAccepted | api/gachas.go:20-24 | an invalid body is answered 202 and nothing is written |
| Gachas.EarlyFailuresWriteNothing | api/gachas.go:33-67 | a failed catalogue read or item lookup is 500; a failed CreateGacha is 403 for unique or foreign-key violations and 500 otherwise; in each case nothing is written |
| Gachas.GalleryFailureKeepsGacha | api/gachas.go:56-87 | a failed CreateGallery keeps the appended gacha record (next id, the requesting account, the drawn item) with no ledger row; the answer is 403 for a unique or foreign-key violation and 500 otherwise, with no body |
| Gachas.GachaOutcomes | api/gachas.go:19-90 | only 200, 202, 403 and 500 come back; the tables change only on 200 or on a failed CreateGallery |
| Gachas.SequentialCatalogueDraws | api/gachas.go:28-48 | over ids 1..n, every draw from 1 to n succeeds with that item, and the draw 0 fails with 500 |
| Gachas.GetGachaApi | api/gachas.go:92-114 | calls exactly when the id is non-zero; 404 for ErrNoRows |
| Gachas.ListGachaApi | api/gachas.go:116-144 | calls exactly when the page is at least 1 and the size at least 10; Limit and wrapped Offset; 404 for ErrNoRows |
| Exchanges.CreateExchangeApi | api/exchanges.go:13-58 | the response and the new ledger and log are CreateExchangeOutcome's: 400, then 404 or 500 for the account lookup, 401 for a foreign account, then the transaction's 500 or 200 |
| Exchanges.ExchangeRequiresOwner | api/exchanges.go:27-57 | a 200 means the from-account exists, belongs to the authenticated user and held item1; the pair is logged and, for different items, the ledger swapped |
| Exchanges.OnlyFromAccountChecked | api/exchanges.go:27-57 | after the ownership check the answer is the transaction's own outcome, with the four request fields passed unchanged; the to-account and the items are not checked |
| Exchanges.ExchangeFailureChangesNothing | api/exchanges.go:20-57 | every answer other than 200 leaves the ledger and the log unchanged |
| Exchanges.NonOwnerUnauthorized | api/exchanges.go:37-42 | a caller who does not own the from-account gets 401 and nothing runs |
| Exchanges.UnknownAccountNotFound | api/exchanges.go:27-35 | an unknown from-account is 404 and nothing is written |
| Exchanges.GetExchangeApi | api/exchanges.go:60-82 | calls exactly when the id is non-zero; 404 for ErrNoRows |
| Exchanges.ListExchangesApi | api/exchanges.go:84-146 | both list handlers: call exactly when the account is set, the page is at least 1 and the size is non-zero and at most 10; 404 for ErrNoRows |
| Exchanges.NegativePageSizeAdmitted | api/exchanges.go:84-101 | a page size of -5 passes the binding and is sent as LIMIT -5 |

## Left out

- The HTTP server, routing, JSON encoding and the error message texts: a handler's response is its status and its data value only.
- users.go and the PASETO token maker: verification is a function parameter of the middleware, and the payload a parameter of the handlers that read it.
- The store queries that only one handler calls and whose SQL is not part of this model (CreateItem, UpdateItem, DeleteItem, the list queries, GetGallery, and others): each is a function parameter of its handler.
- Database constraints: a unique or foreign-key violation is an injected fault, not computed from the tables.
- Transaction isolation and concurrent requests: each transaction runs alone. The WaitGroups in CreateGachaApi have no effect on a single request.
- Sequence gaps: a new row's id is the table size plus one, so ids consumed by a rolled-back insert are not modelled.
- `time.Now()` and the database clock: both are the single parameter `now`.
- The seeding of math/rand from the clock: a draw is any value in its range.
- Middleware.ToLower: lower-cases ASCII letters only. No other character lower-cases to a letter of "bearer", so the scheme check is unaffected; the abort message's text is not modelled.
- Accounts.BalanceToInt64: the float64 balance is its exact decoded value, with no rounding of the decimal text to a double. An out-of-range conversion yields MinInt64, as on amd64.
- Random.RandomInt: states the range only for min <= max. It does not describe the wrapped result when the int64 width computation overflows.
- Accounts.DeleteAccountApi: URI parameters are already parsed. A non-numeric parameter is not modelled.
- The generated sqlc code and the tests are not part of this model.

## Findings

| source | as written | input that shows it | evidently intended | confidence | as-written member | corrected member |
|---|---|---|---|---|---|---|
| api/accounts.go:155-160 | DeleteAccountApi binds `UpdateAccountRequest` from the URI. Its fields have no `uri` tag, so they are looked up as "ID" and "Balance", and both are `required` | `DELETE /account/delete/7`, whose only path parameter is `id` = 7 | bind the `DeleteAccountRequest` declared at lines 151-153 and delete account 7 | not executed; high: the route supplies only "id" | Accounts.DeleteAccountAlwaysRejects | Accounts.DeleteAccountApiFixed |
