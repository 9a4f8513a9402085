/**
  The exchange handlers of api/exchanges.go. CreateExchangeApi checks that
  the from-account belongs to the authenticated user and then runs the
  ExchangeTx transaction: it is a method on the store. The other handlers
  make one query and are functions.
 */
module Exchanges {
  import opened Wrappers
  import opened Ints
  import opened Errors
  import opened Models
  import opened Http
  import opened Paging
  import opened Token
  import opened Ledger
  import opened Store

  datatype CreateExchangeRequest = CreateExchangeRequest(fromAccountId: int64, toAccountId: int64, itemId1: int64, itemId2: int64)

  /** All four fields are `required`: none may be zero. */
  predicate CreateExchangeValid(req: CreateExchangeRequest) {
    req.fromAccountId != 0 && req.toAccountId != 0 && req.itemId1 != 0 && req.itemId2 != 0
  }

  function TxParams(req: CreateExchangeRequest): ExchangeTxParams {
    ExchangeTxParams(req.fromAccountId, req.toAccountId, req.itemId1, req.itemId2)
  }

  /** Which store calls fail: the account lookup, and the calls inside the transaction. */
  datatype ExchangeFaults = ExchangeFaults(getAccount: Option<DbError>, tx: TxFaults)

  datatype ExchangeRun = ExchangeRun(response: Response<ExchangeTxResult>, state: Snapshot)

  /**
    What CreateExchangeApi does: 400 for a request that does not bind, 404 for
    an unknown from-account (500 for any other lookup error), 401 when the
    from-account is not the authenticated user's, then the transaction, whose
    failure is 500.
   */
  function CreateExchangeOutcome(accounts: seq<Account>, s: Snapshot, input: Input<CreateExchangeRequest>, auth: Payload,
                                 f: ExchangeFaults, now: Time): ExchangeRun {
    if input.Undecodable? || !CreateExchangeValid(input.value) then ExchangeRun(Response(StatusBadRequest, None), s)
    else
      var req := input.value;
      var lookup := if f.getAccount.Some? then Err(f.getAccount.value)
                    else match FindAccount(accounts, req.fromAccountId)
                      case None => Err(ErrNoRows)
                      case Some(a) => Ok(a);
      match lookup
      case Err(e) => ExchangeRun(Response(NoRowsStatus(e, StatusNotFound), None), s)
      case Ok(account) =>
        if account.owner != auth.username then ExchangeRun(Response(StatusUnauthorized, None), s)
        else
          var tx := ExchangeTransaction(s, TxParams(req), f.tx, now);
          if tx.err.Some? then ExchangeRun(Response(StatusInternalServerError, None), tx.state)
          else ExchangeRun(Response(StatusOK, Some(tx.result)), tx.state)
  }

  /** CreateExchangeApi on the store, with the authenticated payload the middleware stored. */
  method CreateExchangeApi(store: SqlStore, input: Input<CreateExchangeRequest>, auth: Payload, f: ExchangeFaults, now: Time)
    returns (resp: Response<ExchangeTxResult>)
    modifies store`galleries, store`exchanges
    ensures ExchangeRun(resp, store.Tables()) == CreateExchangeOutcome(store.accounts, old(store.Tables()), input, auth, f, now)
  {
    if input.Undecodable? || !CreateExchangeValid(input.value) {
      return Response(StatusBadRequest, None);
    }
    var req := input.value;
    var account, err := store.GetAccount(req.fromAccountId, f.getAccount);
    if err.Some? {
      if err.value == ErrNoRows {
        return Response(StatusNotFound, None);
      }
      return Response(StatusInternalServerError, None);
    }
    if account.owner != auth.username {
      return Response(StatusUnauthorized, None);
    }
    var result;
    result, err := store.ExchangeTx(TxParams(req), f.tx, now);
    if err.Some? {
      return Response(StatusInternalServerError, None);
    }
    resp := Response(StatusOK, Some(result));
  }

  // ---------------------------------------------------------------------------

  /**
    Only the owner of the from-account can exchange, and only an item that
    account holds: a 200 means the authenticated user owns the from-account,
    the from-account held item1, and (for two different items) the ledger is
    swapped and the two exchange records logged.
   */
  lemma ExchangeRequiresOwner(accounts: seq<Account>, s: Snapshot, input: Input<CreateExchangeRequest>, auth: Payload,
                              f: ExchangeFaults, now: Time)
    ensures var r := CreateExchangeOutcome(accounts, s, input, auth, f, now);
      r.response.status == StatusOK ==>
        && input.Decoded? && CreateExchangeValid(input.value)
        && FindAccount(accounts, input.value.fromAccountId).Some?
        && FindAccount(accounts, input.value.fromAccountId).value.owner == auth.username
        && Owns(s.galleries, input.value.fromAccountId, input.value.itemId1)
        && r.state.exchanges == s.exchanges + LoggedPair(s.exchanges, TxParams(input.value), now)
        && (input.value.itemId1 != input.value.itemId2 ==> Swapped(s.galleries, r.state.galleries, TxParams(input.value), now))
  {
    if input.Decoded? && CreateExchangeValid(input.value) {
      TransactionAtomic(s, TxParams(input.value), f.tx, now);
      SuccessNeedsOwnership(s, TxParams(input.value), f.tx, now);
    }
  }

  /**
    Past the ownership check of the from-account nothing else is checked: the
    to-account and the items are not looked up, and the answer is the
    transaction's own outcome, 200 with its result or 500.
   */
  lemma OnlyFromAccountChecked(accounts: seq<Account>, s: Snapshot, req: CreateExchangeRequest, auth: Payload, tx: TxFaults, now: Time)
    requires CreateExchangeValid(req)
    requires FindAccount(accounts, req.fromAccountId).Some?
    requires FindAccount(accounts, req.fromAccountId).value.owner == auth.username
    ensures var r := CreateExchangeOutcome(accounts, s, Decoded(req), auth, ExchangeFaults(None, tx), now);
      var t := ExchangeTransaction(s, ExchangeTxParams(req.fromAccountId, req.toAccountId, req.itemId1, req.itemId2), tx, now);
      && r.state == t.state
      && (t.err.None? ==> r.response == Response(StatusOK, Some(t.result)))
      && (t.err.Some? ==> r.response == Response(StatusInternalServerError, None))
  {
  }

  /** Every answer other than 200 leaves the ledger and the exchange log as they were. */
  lemma ExchangeFailureChangesNothing(accounts: seq<Account>, s: Snapshot, input: Input<CreateExchangeRequest>, auth: Payload,
                                      f: ExchangeFaults, now: Time)
    ensures var r := CreateExchangeOutcome(accounts, s, input, auth, f, now);
      r.response.status != StatusOK ==> r.state == s
  {
  }

  /** A user who does not own the from-account gets 401 and the transaction never runs. */
  lemma NonOwnerUnauthorized(accounts: seq<Account>, s: Snapshot, req: CreateExchangeRequest, auth: Payload, now: Time)
    requires CreateExchangeValid(req)
    requires FindAccount(accounts, req.fromAccountId).Some?
    requires FindAccount(accounts, req.fromAccountId).value.owner != auth.username
    ensures CreateExchangeOutcome(accounts, s, Decoded(req), auth, ExchangeFaults(None, NoFaults), now)
         == ExchangeRun(Response(StatusUnauthorized, None), s)
  {
  }

  /** An unknown from-account is 404, and nothing is written. */
  lemma UnknownAccountNotFound(accounts: seq<Account>, s: Snapshot, req: CreateExchangeRequest, auth: Payload, tx: TxFaults, now: Time)
    requires CreateExchangeValid(req)
    requires forall i :: 0 <= i < |accounts| ==> accounts[i].id != req.fromAccountId
    ensures CreateExchangeOutcome(accounts, s, Decoded(req), auth, ExchangeFaults(None, tx), now)
         == ExchangeRun(Response(StatusNotFound, None), s)
  {
  }

  // ---------------------------------------------------------------------------

  /** GetExchangeApi: a missing exchange is 404. */
  function GetExchangeApi(input: Input<IdRequest>, getExchange: int64 -> Result<Exchange, DbError>): (run: Run<int64, Exchange>)
    ensures run.call.Some? <==> input.Decoded? && input.value.id != 0
    ensures run.call.None? ==> run.response == Response(StatusBadRequest, None)
    ensures run.call.Some? ==>
      run.call.value == input.value.id && AnswersNoRows(run.response, getExchange(input.value.id), StatusNotFound)
  {
    if input.Undecodable? || input.value.id == 0 then Reject(StatusBadRequest)
    else Serve(input.value.id, getExchange(input.value.id), e => NoRowsStatus(e, StatusNotFound))
  }

  /** ListExchangeFromAccountRequest and ListExchangeToAccountRequest: an account id and a page. */
  datatype ListExchangesRequest = ListExchangesRequest(accountId: int64, pageId: int32, pageSize: int32)

  /**
    ListExchangeFromAccountApi and ListExchangeToAccountApi, which differ only
    in the account column they filter on. The tags are account `required`,
    page `required,min=1` and size `required,max=10`: a size has an upper bound
    but no lower one, so a negative size reaches the store as the LIMIT.
   */
  function ListExchangesApi(input: Input<ListExchangesRequest>, list: FilteredPage<int64> -> Result<seq<Exchange>, DbError>)
    : (run: Run<FilteredPage<int64>, seq<Exchange>>)
    ensures run.call.Some? <==>
      input.Decoded? && input.value.accountId != 0 && input.value.pageId >= 1
      && input.value.pageSize != 0 && input.value.pageSize <= 10
    ensures run.call.None? ==> run.response == Response(StatusBadRequest, None)
    ensures run.call.Some? ==>
      && run.call.value == FilteredPage(input.value.accountId, input.value.pageSize, Offset(input.value.pageId, input.value.pageSize))
      && AnswersNoRows(run.response, list(run.call.value), StatusNotFound)
  {
    if input.Undecodable? then Reject(StatusBadRequest)
    else
      var req := input.value;
      if req.accountId == 0 || req.pageId < 1 || req.pageSize == 0 || req.pageSize > 10 then Reject(StatusBadRequest)
      else
        var arg := FilteredPage(req.accountId, req.pageSize, Offset(req.pageId, req.pageSize));
        Serve(arg, list(arg), e => NoRowsStatus(e, StatusNotFound))
  }

  /** A page size of -5 passes the binding and is sent as a LIMIT of -5, with offset -5 on page 2. */
  lemma NegativePageSizeAdmitted(accountId: int64, list: FilteredPage<int64> -> Result<seq<Exchange>, DbError>)
    requires accountId != 0
    ensures ListExchangesApi(Decoded(ListExchangesRequest(accountId, 2, -5)), list).call == Some(FilteredPage(accountId, -5, -5))
  {
  }
}
