/**
  The account handlers of api/accounts.go. All of them run behind the
  authentication middleware; the handlers that read the authenticated
  payload take it as a parameter.
 */
module Accounts {
  import opened Wrappers
  import opened Ints
  import opened Errors
  import opened Models
  import opened Http
  import opened Paging
  import opened Token

  /** The balance is a JSON number decoded into a float64, kept here as its exact value. */
  datatype CreateAccountRequest = CreateAccountRequest(owner: string, balance: real)

  datatype CreateAccountParams = CreateAccountParams(owner: string, balance: int64)

  datatype UpdateAccountRequest = UpdateAccountRequest(id: int64, balance: int64)

  datatype UpdateAccountParams = UpdateAccountParams(id: int64, balance: int64)

  /** x rounded toward zero, as Go's conversion of a float to an integer rounds. */
  function Truncate(x: real): (r: int)
    ensures x >= 0.0 ==> 0 <= r && r as real <= x < r as real + 1.0
    ensures x < 0.0 ==> r <= 0 && r as real - 1.0 < x <= r as real
  {
    if x >= 0.0 then x.Floor else -((-x).Floor)
  }

  /**
    `int64(req.Balance)`. Go leaves the result of an out-of-range conversion
    to the implementation; the model takes the value amd64 produces, MinInt64.
   */
  function BalanceToInt64(x: real): (r: int64)
    ensures MinInt64 <= Truncate(x) <= MaxInt64 ==> r == Truncate(x)
  {
    var t := Truncate(x);
    if MinInt64 <= t <= MaxInt64 then t else MinInt64
  }

  /**
    CreateAccountApi: owner and balance are `required` (non-empty, non-zero),
    but the account is created for the authenticated user, whatever owner the
    request names, with the balance truncated to an integer. A foreign-key or
    unique violation is 403.
   */
  function CreateAccountApi(input: Input<CreateAccountRequest>, auth: Payload, createAccount: CreateAccountParams -> Result<Account, DbError>)
    : (run: Run<CreateAccountParams, Account>)
    ensures run.call.Some? <==> input.Decoded? && |input.value.owner| > 0 && input.value.balance != 0.0
    ensures run.call.None? ==> run.response == Response(StatusBadRequest, None)
    ensures run.call.Some? ==>
      && run.call.value.owner == auth.username
      && run.call.value.balance == BalanceToInt64(input.value.balance)
      && AnswersPq(run.response, createAccount(run.call.value), {ForeignKeyViolation, UniqueViolation})
  {
    if input.Undecodable? || |input.value.owner| == 0 || input.value.balance == 0.0 then Reject(StatusBadRequest)
    else
      var arg := CreateAccountParams(auth.username, BalanceToInt64(input.value.balance));
      Serve(arg, createAccount(arg), e => PqStatus(e, {ForeignKeyViolation, UniqueViolation}))
  }

  /** GetAccountApi: a missing account is 404. */
  function GetAccountApi(input: Input<IdRequest>, getAccount: int64 -> Result<Account, DbError>): (run: Run<int64, Account>)
    ensures run.call.Some? <==> input.Decoded? && input.value.id != 0
    ensures run.call.None? ==> run.response == Response(StatusBadRequest, None)
    ensures run.call.Some? ==>
      run.call.value == input.value.id && AnswersNoRows(run.response, getAccount(input.value.id), StatusNotFound)
  {
    if input.Undecodable? || input.value.id == 0 then Reject(StatusBadRequest)
    else Serve(input.value.id, getAccount(input.value.id), e => NoRowsStatus(e, StatusNotFound))
  }

  /**
    ListAccountsApi: page `required,min=1`, size `required,min=10`; only the
    authenticated user's accounts are listed, and every store error is 500.
   */
  function ListAccountsApi(input: Input<PageRequest>, auth: Payload, listAccounts: FilteredPage<string> -> Result<seq<Account>, DbError>)
    : (run: Run<FilteredPage<string>, seq<Account>>)
    ensures run.call.Some? <==> input.Decoded? && input.value.pageId >= 1 && input.value.pageSize >= 10
    ensures run.call.None? ==> run.response == Response(StatusBadRequest, None)
    ensures run.call.Some? ==>
      && run.call.value == FilteredPage(auth.username, input.value.pageSize, Offset(input.value.pageId, input.value.pageSize))
      && AnswersInternal(run.response, listAccounts(run.call.value))
  {
    if input.Undecodable? || !PageValid(input.value, 10) then Reject(StatusBadRequest)
    else
      var arg := FilteredPage(auth.username, input.value.pageSize, Offset(input.value.pageId, input.value.pageSize));
      Serve(arg, listAccounts(arg), InternalStatus)
  }

  /**
    UpdateAccountApi, and UpdateBalanceApi, which binds the same request type
    and runs the same query: id and balance `required`, every store error 500
    (a missing account included).
   */
  function UpdateAccountApi(input: Input<UpdateAccountRequest>, updateAccount: UpdateAccountParams -> Result<Account, DbError>)
    : (run: Run<UpdateAccountParams, Account>)
    ensures run.call.Some? <==> input.Decoded? && input.value.id != 0 && input.value.balance != 0
    ensures run.call.None? ==> run.response == Response(StatusBadRequest, None)
    ensures run.call.Some? ==>
      && run.call.value == UpdateAccountParams(input.value.id, input.value.balance)
      && AnswersInternal(run.response, updateAccount(run.call.value))
  {
    if input.Undecodable? || input.value.id == 0 || input.value.balance == 0 then Reject(StatusBadRequest)
    else
      var arg := UpdateAccountParams(input.value.id, input.value.balance);
      Serve(arg, updateAccount(arg), InternalStatus)
  }

  // ---------------------------------------------------------------------------
  // Deleting an account: the request is bound from the URI

  /** The already-parsed path parameters of a request, by name. */
  type UriParams = map<string, int64>

  /** gin's URI binding of one field: the parameter named by the field's key, or the zero value when there is none. */
  function UriValue(params: UriParams, key: string): int64 {
    if key in params then params[key] else 0
  }

  /**
    Binding UpdateAccountRequest from the URI. Its fields carry `json` tags and
    no `uri` tag, so gin looks them up under the field names "ID" and "Balance".
   */
  function BindUpdateAccountUri(params: UriParams): UpdateAccountRequest {
    UpdateAccountRequest(UriValue(params, "ID"), UriValue(params, "Balance"))
  }

  /** Binding DeleteAccountRequest from the URI: `ID int64 uri:"id"`. */
  function BindDeleteAccountUri(params: UriParams): IdRequest {
    IdRequest(UriValue(params, "id"))
  }

  /**
    DeleteAccountApi as written: it binds UpdateAccountRequest from the URI, so
    it reaches the store only when parameters named "ID" and "Balance" are
    both present and non-zero.
   */
  function DeleteAccountApi(params: UriParams, deleteAccount: int64 -> Option<DbError>): (run: Run<int64, ()>)
    ensures run.call.Some? <==> UriValue(params, "ID") != 0 && UriValue(params, "Balance") != 0
    ensures run.call.None? ==> run.response == Response(StatusBadRequest, None)
    ensures run.call.Some? ==> run.call.value == UriValue(params, "ID")
  {
    var req := BindUpdateAccountUri(params);
    if req.id == 0 || req.balance == 0 then Reject(StatusBadRequest)
    else
      match deleteAccount(req.id)
      case None => Run(Some(req.id), Response(StatusOK, None))
      case Some(_) => Run(Some(req.id), Response(StatusInternalServerError, None))
  }

  /**
    The route is `/account/delete/:id`, whose only path parameter is "id":
    as written, every delete request is answered 400 and no account is ever deleted.
   */
  lemma DeleteAccountAlwaysRejects(params: UriParams, deleteAccount: int64 -> Option<DbError>)
    requires params.Keys == {"id"}
    ensures DeleteAccountApi(params, deleteAccount) == Reject(StatusBadRequest)
  {
    assert "ID" !in params;
  }

  /**
    DeleteAccountApi binding the DeleteAccountRequest type declared for it:
    the account named by the "id" parameter is deleted; 200 on success, 500
    on any store error.
   */
  function DeleteAccountApiFixed(params: UriParams, deleteAccount: int64 -> Option<DbError>): (run: Run<int64, ()>)
    ensures run.call.Some? <==> UriValue(params, "id") != 0
    ensures run.call.None? ==> run.response == Response(StatusBadRequest, None)
    ensures run.call.Some? ==> run.call.value == UriValue(params, "id")
    ensures run.call.Some? ==>
      run.response == Response(if deleteAccount(run.call.value).None? then StatusOK else StatusInternalServerError, None)
  {
    var req := BindDeleteAccountUri(params);
    if req.id == 0 then Reject(StatusBadRequest)
    else
      match deleteAccount(req.id)
      case None => Run(Some(req.id), Response(StatusOK, None))
      case Some(_) => Run(Some(req.id), Response(StatusInternalServerError, None))
  }

  /** With the declared request type, a request on the route deletes the account its path names. */
  lemma DeleteAccountFixedDeletes(id: int64, deleteAccount: int64 -> Option<DbError>)
    requires id != 0 && deleteAccount(id).None?
    ensures DeleteAccountApiFixed(map["id" := id], deleteAccount) == Run(Some(id), Response(StatusOK, None))
  {
  }

  // ---------------------------------------------------------------------------

  /** The owner in the request body is checked for presence and then ignored. */
  lemma CreateAccountIgnoresRequestOwner(a: string, b: string, balance: real, auth: Payload,
                                         createAccount: CreateAccountParams -> Result<Account, DbError>)
    requires |a| > 0 && |b| > 0
    ensures CreateAccountApi(Decoded(CreateAccountRequest(a, balance)), auth, createAccount)
         == CreateAccountApi(Decoded(CreateAccountRequest(b, balance)), auth, createAccount)
  {
  }

  /** `required` on the float balance admits 0.5, which is stored as a zero balance. */
  lemma FractionalBalanceStoredAsZero(auth: Payload, createAccount: CreateAccountParams -> Result<Account, DbError>)
    ensures CreateAccountApi(Decoded(CreateAccountRequest("alice", 0.5)), auth, createAccount).call
         == Some(CreateAccountParams(auth.username, 0))
  {
  }

  /** A balance can never be updated to zero: `required` rejects the zero value. */
  lemma UpdateToZeroBalanceRejected(id: int64, updateAccount: UpdateAccountParams -> Result<Account, DbError>)
    ensures UpdateAccountApi(Decoded(UpdateAccountRequest(id, 0)), updateAccount) == Reject(StatusBadRequest)
  {
  }
}
