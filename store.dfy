/**
  SQLStore (db/sqlc/store.go): the tables the core reads and writes, the
  generated queries it calls, and the ExchangeTx transaction.

  Each query takes a `fault` argument: `Some(e)` means the database call
  fails with `e` (a lost connection, a violated constraint) before changing
  anything; `None` means it runs and its outcome depends on the tables alone.
  The clock is a parameter (`now`), standing for `time.Now()` and for the
  database's `now()` default on creation times.
 */
module Store {
  import opened Wrappers
  import opened Ints
  import opened Errors
  import opened Models
  import opened Ledger

  // ---------------------------------------------------------------------------
  // Query semantics shared by the store and the handlers' specifications

  /** The first row whose id is `id` (`WHERE id = $1 LIMIT 1`). */
  function FindItem(rows: seq<Item>, id: int): (r: Option<Item>)
    ensures r.Some? ==> r.value in rows && r.value.id == id
    ensures r.None? <==> forall i :: 0 <= i < |rows| ==> rows[i].id != id
  {
    if rows == [] then None
    else if rows[0].id == id then Some(rows[0])
    else
      var r := FindItem(rows[1..], id);
      assert forall i :: 1 <= i < |rows| ==> rows[i] == rows[1..][i - 1];
      r
  }

  /** The first account whose id is `id`. */
  function FindAccount(rows: seq<Account>, id: int): (r: Option<Account>)
    ensures r.Some? ==> r.value in rows && r.value.id == id
    ensures r.None? <==> forall i :: 0 <= i < |rows| ==> rows[i].id != id
  {
    if rows == [] then None
    else if rows[0].id == id then Some(rows[0])
    else
      var r := FindAccount(rows[1..], id);
      assert forall i :: 1 <= i < |rows| ==> rows[i] == rows[1..][i - 1];
      r
  }

  /** `LIMIT limit OFFSET offset` over rows in table order. */
  function Window<T>(rows: seq<T>, limit: nat, offset: nat): (w: seq<T>)
    ensures |w| == if offset >= |rows| then 0 else if |rows| - offset < limit then |rows| - offset else limit
    ensures forall i :: 0 <= i < |w| ==> offset + i < |rows| && w[i] == rows[offset + i]
  {
    if offset >= |rows| then []
    else if |rows| - offset < limit then rows[offset..]
    else rows[offset..offset + limit]
  }

  /** The row CreateGacha inserts. */
  function NewGacha(log: seq<Gacha>, p: CreateGachaParams, now: Time): Gacha {
    Gacha(|log| + 1, p.accountId, p.itemId, now)
  }

  /** The row CreateGallery inserts: a fresh ownership record, not yet exchanged. */
  function NewGallery(rows: seq<Gallery>, p: CreateGalleryParams, now: Time): Gallery {
    Gallery(|rows| + 1, p.ownerId, p.itemId, now, now)
  }

  /** The GetItem call: an injected fault, else the row or ErrNoRows. */
  function GetItemCall(items: seq<Item>, id: int, fault: Option<DbError>): (r: Result<Item, DbError>)
    ensures fault.Some? ==> r == Err(fault.value)
    ensures fault.None? ==> (r.Ok? <==> exists i :: 0 <= i < |items| && items[i].id == id)
    ensures r.Ok? ==> r.value in items && r.value.id == id
    ensures fault.None? && r.Err? ==> r.error == ErrNoRows
  {
    if fault.Some? then Err(fault.value)
    else match FindItem(items, id)
      case None => Err(ErrNoRows)
      case Some(it) => Ok(it)
  }

  // ---------------------------------------------------------------------------

  class SqlStore {
    var accounts: seq<Account>
    var items: seq<Item>
    var gachas: seq<Gacha>
    var galleries: seq<Gallery>
    var exchanges: seq<Exchange>

    /** A store over existing accounts and catalogue, with no gachas, galleries or exchanges yet. */
    constructor (accounts: seq<Account>, items: seq<Item>)
      ensures this.accounts == accounts && this.items == items
      ensures gachas == [] && galleries == [] && exchanges == []
    {
      this.accounts := accounts;
      this.items := items;
      gachas := [];
      galleries := [];
      exchanges := [];
    }

    /** The tables an exchange touches. */
    function Tables(): Snapshot
      reads this
    {
      Snapshot(galleries, exchanges)
    }

    // -- queries ---------------------------------------------------------------

    method GetAccount(id: int64, fault: Option<DbError>) returns (account: Account, err: Option<DbError>)
      ensures fault.Some? ==> err == fault && account == ZeroAccount
      ensures fault.None? && FindAccount(accounts, id).None? ==> err == Some(ErrNoRows) && account == ZeroAccount
      ensures fault.None? && FindAccount(accounts, id).Some? ==> err == None && account == FindAccount(accounts, id).value
    {
      if fault.Some? {
        return ZeroAccount, fault;
      }
      var found := FindAccount(accounts, id);
      if found.None? {
        return ZeroAccount, Some(ErrNoRows);
      }
      return found.value, None;
    }

    method GetItem(id: int64, fault: Option<DbError>) returns (item: Item, err: Option<DbError>)
      ensures var r := GetItemCall(items, id, fault);
        (r.Ok? ==> err == None && item == r.value) && (r.Err? ==> err == Some(r.error) && item == ZeroItem)
    {
      if fault.Some? {
        return ZeroItem, fault;
      }
      var found := FindItem(items, id);
      if found.None? {
        return ZeroItem, Some(ErrNoRows);
      }
      return found.value, None;
    }

    method ListItemsById(limit: nat, offset: nat, fault: Option<DbError>) returns (rows: seq<Item>, err: Option<DbError>)
      ensures err == fault
      ensures fault.None? ==> rows == Window(items, limit, offset)
      ensures fault.Some? ==> rows == []
    {
      if fault.Some? {
        return [], fault;
      }
      return Window(items, limit, offset), None;
    }

    method CreateGacha(p: CreateGachaParams, fault: Option<DbError>, now: Time) returns (gacha: Gacha, err: Option<DbError>)
      modifies this`gachas
      ensures err == fault
      ensures fault.Some? ==> gacha == ZeroGacha && gachas == old(gachas)
      ensures fault.None? ==> gacha == NewGacha(old(gachas), p, now) && gachas == old(gachas) + [gacha]
    {
      if fault.Some? {
        return ZeroGacha, fault;
      }
      gacha := NewGacha(gachas, p, now);
      gachas := gachas + [gacha];
      err := None;
    }

    method CreateGallery(p: CreateGalleryParams, fault: Option<DbError>, now: Time) returns (gallery: Gallery, err: Option<DbError>)
      modifies this`galleries
      ensures err == fault
      ensures fault.Some? ==> gallery == ZeroGallery && galleries == old(galleries)
      ensures fault.None? ==> gallery == NewGallery(old(galleries), p, now) && galleries == old(galleries) + [gallery]
    {
      if fault.Some? {
        return ZeroGallery, fault;
      }
      gallery := NewGallery(galleries, p, now);
      galleries := galleries + [gallery];
      err := None;
    }

    method CreateExchange(p: CreateExchangeParams, fault: Option<DbError>, now: Time) returns (exchange: Exchange, err: Option<DbError>)
      modifies this`exchanges
      ensures err == fault
      ensures fault.Some? ==> exchange == ZeroExchange && exchanges == old(exchanges)
      ensures fault.None? ==> exchange == NewExchange(old(exchanges), p, now) && exchanges == old(exchanges) + [exchange]
    {
      if fault.Some? {
        return ZeroExchange, fault;
      }
      exchange := NewExchange(exchanges, p, now);
      exchanges := exchanges + [exchange];
      err := None;
    }

    method UpdateGallery(p: UpdateGalleryParams, fault: Option<DbError>) returns (gallery: Gallery, err: Option<DbError>)
      modifies this`galleries
      ensures var u := UpdateGalleryCall(old(galleries), p, fault);
        && (u.Err? ==> err == Some(u.error) && gallery == ZeroGallery && galleries == old(galleries))
        && (u.Ok? ==> err == None && gallery == u.value.1 && galleries == u.value.0)
    {
      if fault.Some? {
        return ZeroGallery, fault;
      }
      var i := 0;
      while i < |galleries| && !Keyed(galleries[i], p.ownerId, p.itemId)
        invariant 0 <= i <= |galleries|
        invariant forall j :: 0 <= j < i ==> !Keyed(galleries[j], p.ownerId, p.itemId)
      {
        i := i + 1;
      }
      if i == |galleries| {
        return ZeroGallery, Some(ErrNoRows);
      }
      galleries := ReassignAll(galleries, p);
      return galleries[i], None;
    }

    // -- the transaction -------------------------------------------------------

    /** BeginTx: the transaction's private view starts from the current tables. */
    method BeginTx(fault: Option<DbError>) returns (snapshot: Snapshot, err: Option<DbError>)
      ensures err == fault && snapshot == Tables()
    {
      return Tables(), fault;
    }

    /** Rollback discards the transaction's writes. Whether or not it reports an error, the writes never persist. */
    method Rollback(snapshot: Snapshot, fault: Option<DbError>) returns (err: Option<DbError>)
      modifies this`galleries, this`exchanges
      ensures Tables() == snapshot && err == fault
    {
      galleries := snapshot.galleries;
      exchanges := snapshot.exchanges;
      err := fault;
    }

    /** Commit keeps the transaction's writes, or on failure discards them. */
    method Commit(snapshot: Snapshot, fault: Option<DbError>) returns (err: Option<DbError>)
      modifies this`galleries, this`exchanges
      ensures err == fault
      ensures fault.None? ==> Tables() == old(Tables())
      ensures fault.Some? ==> Tables() == snapshot
    {
      if fault.Some? {
        galleries := snapshot.galleries;
        exchanges := snapshot.exchanges;
      }
      err := fault;
    }

    /** The closure ExchangeTx hands to execTx: four writes, stopping at the first error. */
    method ExchangeSteps(arg: ExchangeTxParams, f: TxFaults, now: Time) returns (result: ExchangeTxResult, err: Option<DbError>)
      modifies this`galleries, this`exchanges
      ensures TxRun(Tables(), result, err) == ExchangeClosure(old(Tables()), arg, f, now)
    {
      result := ZeroResult;
      var e1, e2, g1, g2;
      e1, err := CreateExchange(Exchange1Params(arg), f.exchange1, now);
      result := result.(exchange1 := e1);
      if err.Some? {
        return;
      }
      e2, err := CreateExchange(Exchange2Params(arg), f.exchange2, now);
      result := result.(exchange2 := e2);
      if err.Some? {
        return;
      }
      g1, err := UpdateGallery(Gallery1Params(arg, now), f.gallery1);
      result := result.(gallery1 := g1);
      if err.Some? {
        return;
      }
      g2, err := UpdateGallery(Gallery2Params(arg, now), f.gallery2);
      result := result.(gallery2 := g2);
    }

    /**
      ExchangeTx with execTx inlined: begin, run the closure, roll back on its
      error (combining a rollback error with it), else commit.
     */
    method ExchangeTx(arg: ExchangeTxParams, f: TxFaults, now: Time) returns (result: ExchangeTxResult, err: Option<DbError>)
      modifies this`galleries, this`exchanges
      ensures TxRun(Tables(), result, err) == ExchangeTransaction(old(Tables()), arg, f, now)
      ensures err.Some? ==> galleries == old(galleries) && exchanges == old(exchanges)
      ensures err.None? ==> exchanges == old(exchanges) + LoggedPair(old(exchanges), arg, now)
      ensures err.None? ==> [result.exchange1, result.exchange2] == LoggedPair(old(exchanges), arg, now)
      ensures SameRows(old(galleries), galleries)
      ensures err.None? && arg.itemId1 != arg.itemId2 ==> Swapped(old(galleries), galleries, arg, now)
      ensures err.None? ==> Owns(old(galleries), arg.fromAccountId, arg.itemId1)
      ensures err.None? && arg.itemId1 != arg.itemId2 ==>
        && Keyed(result.gallery1, arg.toAccountId, arg.itemId1) && result.gallery1.exchangeAt == now
        && Keyed(result.gallery2, arg.fromAccountId, arg.itemId2) && result.gallery2.exchangeAt == now
        && result.gallery1 in galleries && result.gallery2 in galleries
    {
      TransactionAtomic(Tables(), arg, f, now);
      SuccessNeedsOwnership(Tables(), arg, f, now);
      if arg.itemId1 != arg.itemId2 {
        TransactionReturnsRows(Tables(), arg, f, now);
      }
      var snapshot, beginErr := BeginTx(f.begin);
      if beginErr.Some? {
        return ZeroResult, beginErr;
      }
      var fnErr;
      result, fnErr := ExchangeSteps(arg, f, now);
      if fnErr.Some? {
        var rbErr := Rollback(snapshot, f.rollback);
        if rbErr.Some? {
          return result, Some(TxRollbackFailed(fnErr.value, rbErr.value));
        }
        return result, fnErr;
      }
      err := Commit(snapshot, f.commit);
    }
  }
}
