/**
  The item-exchange transaction of db/sqlc/store.go as functions on the part
  of the database it touches: the gallery ledger (which account owns which
  item) and the exchange log. `Store.SqlStore.ExchangeTx` is proved to have
  exactly the effect `ExchangeTransaction` describes; the lemmas below state
  what that effect is.

  Every database call may fail on its own (a lost connection, a constraint);
  a `TxFaults` value says which calls fail and with what error, so that a
  property proved for all `TxFaults` holds whichever calls fail.
 */
module Ledger {
  import opened Wrappers
  import opened Ints
  import opened Errors
  import opened Models

  /** The tables an exchange reads and writes. */
  datatype Snapshot = Snapshot(galleries: seq<Gallery>, exchanges: seq<Exchange>)

  datatype ExchangeTxParams = ExchangeTxParams(fromAccountId: int64, toAccountId: int64, itemId1: int64, itemId2: int64)

  datatype ExchangeTxResult = ExchangeTxResult(exchange1: Exchange, exchange2: Exchange, gallery1: Gallery, gallery2: Gallery)

  const ZeroResult := ExchangeTxResult(ZeroExchange, ZeroExchange, ZeroGallery, ZeroGallery)

  /** Which of the transaction's database calls fail (None: the call itself succeeds). */
  datatype TxFaults = TxFaults(
    begin: Option<DbError>,
    exchange1: Option<DbError>,
    exchange2: Option<DbError>,
    gallery1: Option<DbError>,
    gallery2: Option<DbError>,
    rollback: Option<DbError>,
    commit: Option<DbError>)

  const NoFaults := TxFaults(None, None, None, None, None, None, None)

  /** The tables after a run, the result the closure filled in, and the error returned. */
  datatype TxRun = TxRun(state: Snapshot, result: ExchangeTxResult, err: Option<DbError>)

  // ---------------------------------------------------------------------------
  // The two queries the closure issues

  /** The row CreateExchange inserts; ids are handed out in insertion order. */
  function NewExchange(log: seq<Exchange>, p: CreateExchangeParams, now: Time): Exchange {
    Exchange(|log| + 1, p.fromAccountId, p.toAccountId, p.itemId, now)
  }

  /** The ledger row is keyed (owner, item). */
  predicate Keyed(g: Gallery, owner: int, item: int) {
    g.ownerId == owner && g.itemId == item
  }

  /** Some ledger row says that `owner` holds `item`. */
  predicate Owns(rows: seq<Gallery>, owner: int, item: int) {
    exists i :: 0 <= i < |rows| && Keyed(rows[i], owner, item)
  }

  /** The first row keyed (owner, item), if any. */
  function FirstMatch(rows: seq<Gallery>, owner: int, item: int): (r: Option<nat>)
    ensures r.None? <==> !Owns(rows, owner, item)
    ensures r.Some? ==> r.value < |rows| && Keyed(rows[r.value], owner, item)
    ensures r.Some? ==> forall j :: 0 <= j < r.value ==> !Keyed(rows[j], owner, item)
  {
    if rows == [] then None
    else if Keyed(rows[0], owner, item) then Some(0)
    else
      match FirstMatch(rows[1..], owner, item)
      case None =>
        assert forall i :: 1 <= i < |rows| ==> rows[i] == rows[1..][i - 1];
        None
      case Some(i) => Some(i + 1)
  }

  /** One row under UpdateGallery: a row keyed (OwnerID, ItemID) gets owner OwnerID_2 and the exchange time. */
  function Reassign(g: Gallery, p: UpdateGalleryParams): Gallery {
    if Keyed(g, p.ownerId, p.itemId) then g.(ownerId := p.ownerId2, exchangeAt := p.exchangeAt) else g
  }

  /**
    The table after `UPDATE galleries SET owner_id = OwnerID_2, exchange_at = ExchangeAt
    WHERE owner_id = OwnerID AND item_id = ItemID`: the matching rows change owner
    and are stamped, every other row is left as it was, and whoever held the item
    before, the new owner holds it afterwards.
   */
  function ReassignAll(rows: seq<Gallery>, p: UpdateGalleryParams): (r: seq<Gallery>)
    ensures |r| == |rows|
    ensures forall i :: 0 <= i < |rows| && Keyed(rows[i], p.ownerId, p.itemId) ==>
      r[i] == rows[i].(ownerId := p.ownerId2, exchangeAt := p.exchangeAt)
    ensures forall i :: 0 <= i < |rows| && !Keyed(rows[i], p.ownerId, p.itemId) ==> r[i] == rows[i]
    ensures Owns(rows, p.ownerId, p.itemId) ==> Owns(r, p.ownerId2, p.itemId)
    ensures p.ownerId != p.ownerId2 ==> !Owns(r, p.ownerId, p.itemId)
  {
    seq(|rows|, i requires 0 <= i < |rows| => Reassign(rows[i], p))
  }

  /**
    UpdateGallery, read as the SQL statement its parameters name: every row
    keyed (OwnerID, ItemID) is reassigned and the first of them is returned;
    when no row matches, the single-row scan reports ErrNoRows.
   */
  function UpdateGalleryRows(rows: seq<Gallery>, p: UpdateGalleryParams): (r: Result<(seq<Gallery>, Gallery), DbError>)
    ensures r.Err? <==> !Owns(rows, p.ownerId, p.itemId)
    ensures r.Err? ==> r.error == ErrNoRows
    ensures r.Ok? ==> Keyed(r.value.1, p.ownerId2, p.itemId) && r.value.1.exchangeAt == p.exchangeAt
    ensures r.Ok? ==> r.value.1 in r.value.0
    ensures r.Ok? ==> r.value.0 == ReassignAll(rows, p)
    ensures r.Ok? ==> var i := FirstMatch(rows, p.ownerId, p.itemId).value;
      r.value.1 == r.value.0[i] && r.value.1 == rows[i].(ownerId := p.ownerId2, exchangeAt := p.exchangeAt)
  {
    match FirstMatch(rows, p.ownerId, p.itemId)
    case None => Err(ErrNoRows)
    case Some(i) =>
      var updated := ReassignAll(rows, p);
      Ok((updated, updated[i]))
  }

  /** The UpdateGallery call: an injected fault, else the statement's own outcome. */
  function UpdateGalleryCall(rows: seq<Gallery>, p: UpdateGalleryParams, fault: Option<DbError>): Result<(seq<Gallery>, Gallery), DbError> {
    if fault.Some? then Err(fault.value) else UpdateGalleryRows(rows, p)
  }

  // ---------------------------------------------------------------------------
  // The closure and the transaction around it

  function Exchange1Params(arg: ExchangeTxParams): CreateExchangeParams {
    CreateExchangeParams(arg.fromAccountId, arg.toAccountId, arg.itemId1)
  }

  function Exchange2Params(arg: ExchangeTxParams): CreateExchangeParams {
    CreateExchangeParams(arg.toAccountId, arg.fromAccountId, arg.itemId2)
  }

  function Gallery1Params(arg: ExchangeTxParams, now: Time): UpdateGalleryParams {
    UpdateGalleryParams(arg.fromAccountId, arg.itemId1, arg.toAccountId, now)
  }

  function Gallery2Params(arg: ExchangeTxParams, now: Time): UpdateGalleryParams {
    UpdateGalleryParams(arg.toAccountId, arg.itemId2, arg.fromAccountId, now)
  }

  /**
    The closure ExchangeTx passes to execTx, run on the transaction's view of
    the tables: four writes in order, each returning at its first error with
    the result filled in up to that step.
   */
  function ExchangeClosure(s: Snapshot, arg: ExchangeTxParams, f: TxFaults, now: Time): TxRun {
    if f.exchange1.Some? then TxRun(s, ZeroResult, f.exchange1)
    else
      var e1 := NewExchange(s.exchanges, Exchange1Params(arg), now);
      var s1 := s.(exchanges := s.exchanges + [e1]);
      var r1 := ZeroResult.(exchange1 := e1);
      if f.exchange2.Some? then TxRun(s1, r1, f.exchange2)
      else
        var e2 := NewExchange(s1.exchanges, Exchange2Params(arg), now);
        var s2 := s1.(exchanges := s1.exchanges + [e2]);
        var r2 := r1.(exchange2 := e2);
        var u1 := UpdateGalleryCall(s2.galleries, Gallery1Params(arg, now), f.gallery1);
        if u1.Err? then TxRun(s2, r2, Some(u1.error))
        else
          var s3 := s2.(galleries := u1.value.0);
          var r3 := r2.(gallery1 := u1.value.1);
          var u2 := UpdateGalleryCall(s3.galleries, Gallery2Params(arg, now), f.gallery2);
          if u2.Err? then TxRun(s3, r3, Some(u2.error))
          else TxRun(s3.(galleries := u2.value.0), r3.(gallery2 := u2.value.1), None)
  }

  /**
    The error execTx returns once BeginTx has succeeded: a closure error
    (combined with the rollback's error when that fails too), else Commit's.
    It is None exactly when both the closure and the commit succeed.
   */
  function ExecTxError(fnErr: Option<DbError>, rbErr: Option<DbError>, commitErr: Option<DbError>): (r: Option<DbError>)
    ensures r.None? <==> fnErr.None? && commitErr.None?
  {
    match fnErr
    case Some(e) => Some(if rbErr.Some? then TxRollbackFailed(e, rbErr.value) else e)
    case None => commitErr
  }

  /**
    ExchangeTx as a whole: the tables it leaves behind, the result and the
    error it returns. The closure's writes are kept only when execTx
    returns no error; otherwise the tables are those before BeginTx.
   */
  function ExchangeTransaction(s: Snapshot, arg: ExchangeTxParams, f: TxFaults, now: Time): (r: TxRun)
    ensures r.err.Some? ==> r.state == s
  {
    if f.begin.Some? then TxRun(s, ZeroResult, f.begin)
    else
      var run := ExchangeClosure(s, arg, f, now);
      var err := ExecTxError(run.err, f.rollback, f.commit);
      TxRun(if err.None? then run.state else s, run.result, err)
  }

  // ---------------------------------------------------------------------------
  // Properties of the transaction

  /**
    The ledger after a successful exchange of two different items: the rows
    keyed (from, item1) now belong to `to`, the rows keyed (to, item2) belong to
    `from`, both stamped with the exchange time, and every other row is as it was.
   */
  ghost predicate Swapped(before: seq<Gallery>, after: seq<Gallery>, arg: ExchangeTxParams, now: Time) {
    |after| == |before| &&
    forall i :: 0 <= i < |before| ==>
      after[i] == (if Keyed(before[i], arg.fromAccountId, arg.itemId1) then before[i].(ownerId := arg.toAccountId, exchangeAt := now)
                   else if Keyed(before[i], arg.toAccountId, arg.itemId2) then before[i].(ownerId := arg.fromAccountId, exchangeAt := now)
                   else before[i])
  }

  /** Row by row, only owners and exchange times differ: same count, ids, items and creation times. */
  ghost predicate SameRows(before: seq<Gallery>, after: seq<Gallery>) {
    |after| == |before| &&
    forall i :: 0 <= i < |before| ==>
      after[i].id == before[i].id && after[i].itemId == before[i].itemId && after[i].createdAt == before[i].createdAt
  }

  /** The two exchange records a successful exchange logs, one per direction. */
  function LoggedPair(log: seq<Exchange>, arg: ExchangeTxParams, now: Time): seq<Exchange> {
    [Exchange(|log| + 1, arg.fromAccountId, arg.toAccountId, arg.itemId1, now),
     Exchange(|log| + 2, arg.toAccountId, arg.fromAccountId, arg.itemId2, now)]
  }

  lemma ReassignAllSameRows(rows: seq<Gallery>, p: UpdateGalleryParams)
    ensures SameRows(rows, ReassignAll(rows, p))
  {
  }

  /** Whatever happens, the closure changes no row's id, item or creation time, and adds or removes no row. */
  lemma ClosureSameRows(s: Snapshot, arg: ExchangeTxParams, f: TxFaults, now: Time)
    ensures SameRows(s.galleries, ExchangeClosure(s, arg, f, now).state.galleries)
  {
    var g1 := ReassignAll(s.galleries, Gallery1Params(arg, now));
    ReassignAllSameRows(s.galleries, Gallery1Params(arg, now));
    ReassignAllSameRows(g1, Gallery2Params(arg, now));
  }

  /** A transaction that returns no error logged exactly the two exchange records, from->to with item1 and to->from with item2. */
  lemma TransactionLogsPair(s: Snapshot, arg: ExchangeTxParams, f: TxFaults, now: Time)
    ensures var r := ExchangeTransaction(s, arg, f, now);
      r.err.None? ==> r.state.exchanges == s.exchanges + LoggedPair(s.exchanges, arg, now)
                      && [r.result.exchange1, r.result.exchange2] == LoggedPair(s.exchanges, arg, now)
  {
  }

  /**
    For two different items, a transaction that returns no error hands back
    the two updated ledger rows: gallery1 is a row of item1 now owned by `to`,
    gallery2 a row of item2 now owned by `from`, both stamped with the exchange
    time and both as they stand in the table afterwards.
   */
  lemma TransactionReturnsRows(s: Snapshot, arg: ExchangeTxParams, f: TxFaults, now: Time)
    requires arg.itemId1 != arg.itemId2
    ensures var r := ExchangeTransaction(s, arg, f, now);
      r.err.None? ==>
        && Keyed(r.result.gallery1, arg.toAccountId, arg.itemId1) && r.result.gallery1.exchangeAt == now
        && Keyed(r.result.gallery2, arg.fromAccountId, arg.itemId2) && r.result.gallery2.exchangeAt == now
        && r.result.gallery1 in r.state.galleries && r.result.gallery2 in r.state.galleries
  {
    var r := ExchangeTransaction(s, arg, f, now);
    if r.err.None? {
      var g1 := ReassignAll(s.galleries, Gallery1Params(arg, now));
      var g2 := ReassignAll(g1, Gallery2Params(arg, now));
      assert r.state.galleries == g2;
      var i := FirstMatch(s.galleries, arg.fromAccountId, arg.itemId1).value;
      assert r.result.gallery1 == g1[i];
      assert !Keyed(g1[i], arg.toAccountId, arg.itemId2);
      assert g2[i] == g1[i];
    }
  }

  /** The closure's two UpdateGallery steps compose, for two different items, into a swap. */
  lemma ClosureSwaps(s: Snapshot, arg: ExchangeTxParams, f: TxFaults, now: Time)
    requires arg.itemId1 != arg.itemId2
    ensures var r := ExchangeClosure(s, arg, f, now);
      r.err.None? ==> Swapped(s.galleries, r.state.galleries, arg, now)
  {
    var r := ExchangeClosure(s, arg, f, now);
    if r.err.None? {
      var g1 := ReassignAll(s.galleries, Gallery1Params(arg, now));
      var g2 := ReassignAll(g1, Gallery2Params(arg, now));
      assert r.state.galleries == g2;
      forall i | 0 <= i < |s.galleries|
        ensures g2[i] == (if Keyed(s.galleries[i], arg.fromAccountId, arg.itemId1) then s.galleries[i].(ownerId := arg.toAccountId, exchangeAt := now)
                          else if Keyed(s.galleries[i], arg.toAccountId, arg.itemId2) then s.galleries[i].(ownerId := arg.fromAccountId, exchangeAt := now)
                          else s.galleries[i])
      {
        assert g1[i] == Reassign(s.galleries[i], Gallery1Params(arg, now));
        assert g2[i] == Reassign(g1[i], Gallery2Params(arg, now));
      }
    }
  }

  /**
    The transaction is all or nothing: with an error the tables are exactly
    as before; without one, the ledger is swapped (for two different items)
    and the log grew by the two records.
   */
  lemma TransactionAtomic(s: Snapshot, arg: ExchangeTxParams, f: TxFaults, now: Time)
    ensures var r := ExchangeTransaction(s, arg, f, now);
      && (r.err.Some? ==> r.state == s)
      && SameRows(s.galleries, r.state.galleries)
      && (r.err.None? ==> r.state.exchanges == s.exchanges + LoggedPair(s.exchanges, arg, now))
      && (r.err.None? && arg.itemId1 != arg.itemId2 ==> Swapped(s.galleries, r.state.galleries, arg, now))
  {
    ClosureSameRows(s, arg, f, now);
    if arg.itemId1 != arg.itemId2 {
      ClosureSwaps(s, arg, f, now);
    }
  }

  /**
    When the transaction returns no error, every call in it succeeded and the
    from-account held item1; for two different items the to-account held
    item2 as well. So although ExchangeTx checks no ownership before writing,
    UpdateGallery's match on (owner, item) makes it fail, and roll back, when
    the from-account does not hold item1.
   */
  lemma SuccessNeedsOwnership(s: Snapshot, arg: ExchangeTxParams, f: TxFaults, now: Time)
    ensures var r := ExchangeTransaction(s, arg, f, now);
      r.err.None? ==>
        && f.begin.None? && f.exchange1.None? && f.exchange2.None? && f.gallery1.None? && f.gallery2.None? && f.commit.None?
        && Owns(s.galleries, arg.fromAccountId, arg.itemId1)
        && (arg.itemId1 != arg.itemId2 ==> Owns(s.galleries, arg.toAccountId, arg.itemId2))
  {
    var r := ExchangeTransaction(s, arg, f, now);
    if r.err.None? && arg.itemId1 != arg.itemId2 {
      var g1 := ReassignAll(s.galleries, Gallery1Params(arg, now));
      assert Owns(g1, arg.toAccountId, arg.itemId2);
      var i :| 0 <= i < |g1| && Keyed(g1[i], arg.toAccountId, arg.itemId2);
      assert g1[i] == Reassign(s.galleries[i], Gallery1Params(arg, now));
      assert Keyed(s.galleries[i], arg.toAccountId, arg.itemId2);
    }
  }

  /** Conversely, with no call failing and two different items, both ownerships suffice for success. */
  lemma OwnershipSuffices(s: Snapshot, arg: ExchangeTxParams, now: Time)
    requires arg.itemId1 != arg.itemId2
    requires Owns(s.galleries, arg.fromAccountId, arg.itemId1)
    requires Owns(s.galleries, arg.toAccountId, arg.itemId2)
    ensures ExchangeTransaction(s, arg, NoFaults, now).err.None?
  {
    var g1 := ReassignAll(s.galleries, Gallery1Params(arg, now));
    var i :| 0 <= i < |s.galleries| && Keyed(s.galleries[i], arg.toAccountId, arg.itemId2);
    assert g1[i] == Reassign(s.galleries[i], Gallery1Params(arg, now));
    assert Keyed(g1[i], arg.toAccountId, arg.itemId2);
  }

  /**
    The steps run in the order exchange1, exchange2, gallery1, gallery2, and
    the first failing step leaves the later result fields at their zero value
    and returns that step's error.
   */
  lemma FirstFailureStops(s: Snapshot, arg: ExchangeTxParams, f: TxFaults, now: Time)
    ensures var r := ExchangeClosure(s, arg, f, now);
      && (f.exchange1.Some? ==> r == TxRun(s, ZeroResult, f.exchange1))
      && (f.exchange1.None? && f.exchange2.Some? ==>
            r.err == f.exchange2 && r.result.exchange2 == ZeroExchange
            && r.result.gallery1 == ZeroGallery && r.result.gallery2 == ZeroGallery
            && r.state.galleries == s.galleries)
      && (f.exchange1.None? && f.exchange2.None? && f.gallery1.Some? ==>
            r.err == f.gallery1 && r.result.gallery1 == ZeroGallery && r.result.gallery2 == ZeroGallery
            && r.state.galleries == s.galleries)
      && (f.exchange1.None? && f.exchange2.None? && f.gallery1.None? && !Owns(s.galleries, arg.fromAccountId, arg.itemId1) ==>
            r.err == Some(ErrNoRows) && r.result.gallery1 == ZeroGallery && r.result.gallery2 == ZeroGallery
            && r.state.galleries == s.galleries)
      && (f.exchange1.None? && f.exchange2.None? && f.gallery1.None? && Owns(s.galleries, arg.fromAccountId, arg.itemId1)
          && f.gallery2.Some? ==>
            r.err == f.gallery2 && r.result.gallery2 == ZeroGallery)
  {
  }

  /**
    execTx's three outcomes: a failed BeginTx returns its error and the closure
    never runs; a failed closure returns its error unchanged, or combined with
    a failed rollback's, and keeps nothing; a successful closure returns
    exactly Commit's result. The partially filled result is returned in every case.
   */
  lemma ExecTxOutcomes(s: Snapshot, arg: ExchangeTxParams, f: TxFaults, now: Time)
    ensures var r := ExchangeTransaction(s, arg, f, now);
      var run := ExchangeClosure(s, arg, f, now);
      && (f.begin.Some? ==> r == TxRun(s, ZeroResult, f.begin))
      && (f.begin.None? ==> r.result == run.result)
      && (f.begin.None? && run.err.Some? && f.rollback.None? ==> r.err == run.err && r.state == s)
      && (f.begin.None? && run.err.Some? && f.rollback.Some? ==>
            r.err == Some(TxRollbackFailed(run.err.value, f.rollback.value)) && r.state == s)
      && (f.begin.None? && run.err.None? ==> r.err == f.commit)
      && (f.begin.None? && run.err.None? && f.commit.None? ==> r.state == run.state)
  {
  }

  // ---------------------------------------------------------------------------
  // Conservation of ownership records

  /** Number of ledger rows that reference `item`. */
  function CountItem(rows: seq<Gallery>, item: int): (n: nat)
    ensures n <= |rows|
  {
    if rows == [] then 0 else (if rows[0].itemId == item then 1 else 0) + CountItem(rows[1..], item)
  }

  lemma {:induction false} CountItemSameRows(before: seq<Gallery>, after: seq<Gallery>, item: int)
    requires SameRows(before, after)
    ensures CountItem(after, item) == CountItem(before, item)
  {
    if before != [] {
      assert SameRows(before[1..], after[1..]) by {
        forall i | 0 <= i < |before| - 1
          ensures after[1..][i].id == before[1..][i].id && after[1..][i].itemId == before[1..][i].itemId
                  && after[1..][i].createdAt == before[1..][i].createdAt
        {
          assert after[1..][i] == after[i + 1] && before[1..][i] == before[i + 1];
        }
      }
      CountItemSameRows(before[1..], after[1..], item);
    }
  }

  /** However it ends, an exchange neither creates nor destroys any item's ownership records. */
  lemma TransactionConservesItems(s: Snapshot, arg: ExchangeTxParams, f: TxFaults, now: Time, item: int)
    ensures CountItem(ExchangeTransaction(s, arg, f, now).state.galleries, item) == CountItem(s.galleries, item)
  {
    TransactionAtomic(s, arg, f, now);
    CountItemSameRows(s.galleries, ExchangeTransaction(s, arg, f, now).state.galleries, item);
  }

  // ---------------------------------------------------------------------------
  // Exchanging an item for the same item

  /**
    When both sides name the same item, the second UpdateGallery also matches
    the rows the first one has just handed to `to`: every row of that item that
    either account held ends up with the from-account.
   */
  lemma SameItemGoesToFrom(s: Snapshot, arg: ExchangeTxParams, f: TxFaults, now: Time)
    requires arg.itemId1 == arg.itemId2
    ensures var r := ExchangeTransaction(s, arg, f, now);
      r.err.None? ==>
        forall i :: 0 <= i < |s.galleries| && s.galleries[i].itemId == arg.itemId1
                    && (s.galleries[i].ownerId == arg.fromAccountId || s.galleries[i].ownerId == arg.toAccountId)
                    ==> r.state.galleries[i].ownerId == arg.fromAccountId
  {
    var r := ExchangeTransaction(s, arg, f, now);
    if r.err.None? {
      var g1 := ReassignAll(s.galleries, Gallery1Params(arg, now));
      var g2 := ReassignAll(g1, Gallery2Params(arg, now));
      assert r.state.galleries == g2;
      forall i | 0 <= i < |s.galleries| && s.galleries[i].itemId == arg.itemId1
                 && (s.galleries[i].ownerId == arg.fromAccountId || s.galleries[i].ownerId == arg.toAccountId)
        ensures g2[i].ownerId == arg.fromAccountId
      {
        assert g1[i] == Reassign(s.galleries[i], Gallery1Params(arg, now));
        assert g2[i] == Reassign(g1[i], Gallery2Params(arg, now));
      }
    }
  }

  /**
    A concrete run: account 1 holds item 10 and account 2 holds nothing. The
    exchange (1, 2, 10, 10) succeeds, logs two exchange records, and leaves
    item 10 with account 1.
   */
  lemma SameItemExchangeWithoutPartnerItem(now: Time)
    ensures var s := Snapshot([Gallery(1, 1, 10, 0, 0)], []);
      var r := ExchangeTransaction(s, ExchangeTxParams(1, 2, 10, 10), NoFaults, now);
      && r.err.None?
      && |r.state.exchanges| == 2
      && r.state.galleries == [Gallery(1, 1, 10, now, 0)]
  {
    var s := Snapshot([Gallery(1, 1, 10, 0, 0)], []);
    var arg := ExchangeTxParams(1, 2, 10, 10);
    var g1 := ReassignAll(s.galleries, Gallery1Params(arg, now));
    assert g1[0] == Gallery(1, 2, 10, now, 0);
    assert FirstMatch(g1, 2, 10) == Some(0);
    var g2 := ReassignAll(g1, Gallery2Params(arg, now));
    assert g2[0] == Gallery(1, 1, 10, now, 0);
    assert g2 == [Gallery(1, 1, 10, now, 0)];
  }

  /** The scenario of a plain trade: account 1 holds item 10, account 2 holds item 20, and exchange (1, 2, 10, 20) swaps them. */
  lemma PlainTradeScenario(now: Time)
    ensures var s := Snapshot([Gallery(1, 1, 10, 0, 0), Gallery(2, 2, 20, 0, 0)], []);
      var r := ExchangeTransaction(s, ExchangeTxParams(1, 2, 10, 20), NoFaults, now);
      && r.err.None?
      && r.result.exchange1 == Exchange(1, 1, 2, 10, now)
      && r.result.exchange2 == Exchange(2, 2, 1, 20, now)
      && r.state.galleries == [Gallery(1, 2, 10, now, 0), Gallery(2, 1, 20, now, 0)]
  {
    var s := Snapshot([Gallery(1, 1, 10, 0, 0), Gallery(2, 2, 20, 0, 0)], []);
    var arg := ExchangeTxParams(1, 2, 10, 20);
    assert Keyed(s.galleries[0], 1, 10) && Keyed(s.galleries[1], 2, 20);
    OwnershipSuffices(s, arg, now);
    TransactionAtomic(s, arg, NoFaults, now);
    var r := ExchangeTransaction(s, arg, NoFaults, now);
    assert r.state.galleries[0] == Gallery(1, 2, 10, now, 0);
    assert r.state.galleries[1] == Gallery(2, 1, 20, now, 0);
  }

  /**
    When both sides name the same item (and the accounts differ), the gallery1
    returned to the client is stale: it shows the item with `to`, but the second
    UpdateGallery has already handed every such row on to `from`, so no row of
    the final ledger says that `to` holds the item.
   */
  lemma SameItemStaleGallery1(s: Snapshot, arg: ExchangeTxParams, f: TxFaults, now: Time)
    requires arg.itemId1 == arg.itemId2 && arg.fromAccountId != arg.toAccountId
    ensures var r := ExchangeTransaction(s, arg, f, now);
      r.err.None? ==>
        && Keyed(r.result.gallery1, arg.toAccountId, arg.itemId1)
        && !Owns(r.state.galleries, arg.toAccountId, arg.itemId1)
        && r.result.gallery1 !in r.state.galleries
  {
    var r := ExchangeTransaction(s, arg, f, now);
    if r.err.None? {
      var g1 := ReassignAll(s.galleries, Gallery1Params(arg, now));
      var g2 := ReassignAll(g1, Gallery2Params(arg, now));
      assert r.state.galleries == g2;
      assert !Owns(g2, arg.toAccountId, arg.itemId2);
    }
  }
}
