/**
  What a gin handler observes and produces, without the HTTP machinery.

  A request body, query or URI either fails to decode into the request struct
  (`Undecodable`) or decodes into a record whose binding tags are then checked
  as explicit predicates by each handler. A handler that makes one store call is
  modelled as a function of its input and of the store, given as an oracle from
  the call's parameters to the store's reply; it yields the call it made (if
  any) and the response it wrote.
 */
module Http {
  import opened Wrappers
  import opened Ints
  import opened Errors

  const StatusOK: int := 200
  const StatusAccepted: int := 202
  const StatusBadRequest: int := 400
  const StatusUnauthorized: int := 401
  const StatusForbidden: int := 403
  const StatusNotFound: int := 404
  const StatusInternalServerError: int := 500

  /** A written response: the status and, on success, the JSON value sent. */
  datatype Response<+T> = Response(status: int, data: Option<T>)

  datatype Input<+T> = Undecodable | Decoded(value: T)

  /** A request that carries only `ID int64 uri:"id" binding:"required"`. */
  datatype IdRequest = IdRequest(id: int64)

  /** The store call a handler made (None: the store was not called) and its response. */
  datatype Run<+P, +T> = Run(call: Option<P>, response: Response<T>)

  /** A character gin's `alphanum` tag admits: an ASCII letter or digit. */
  predicate IsAsciiAlnum(c: char) {
    'a' <= c <= 'z' || 'A' <= c <= 'Z' || '0' <= c <= '9'
  }

  /** gin's `alphanum` tag on a string. */
  predicate Alphanum(s: string) {
    forall i :: 0 <= i < |s| ==> IsAsciiAlnum(s[i])
  }

  /** The `if err == sql.ErrNoRows { onNoRows } else { 500 }` mapping. */
  function NoRowsStatus(e: DbError, onNoRows: int): int {
    if e == ErrNoRows then onNoRows else StatusInternalServerError
  }

  /** The `switch pqErr.Code.Name() { case names...: 403 }; 500` mapping. */
  function PqStatus(e: DbError, names: set<string>): int {
    if IsPqErrorIn(e, names) then StatusForbidden else StatusInternalServerError
  }

  /** Every store error answered with 500. */
  function InternalStatus(e: DbError): int {
    StatusInternalServerError
  }

  /** The handler calls the store with `call` and answers with its reply. */
  function Serve<P, T>(call: P, reply: Result<T, DbError>, errStatus: DbError -> int): Run<P, T> {
    match reply
    case Ok(v) => Run(Some(call), Response(StatusOK, Some(v)))
    case Err(e) => Run(Some(call), Response(errStatus(e), None))
  }

  /** The handler stops before the store is called. */
  function Reject<P, T>(status: int): Run<P, T> {
    Run(None, Response(status, None))
  }

  // Specifications of the three error-to-status mappings the handlers use.

  /** `resp` answers `reply`: 200 with the value, else 404-style `onNoRows` for ErrNoRows and 500 otherwise. */
  ghost predicate AnswersNoRows<T>(resp: Response<T>, reply: Result<T, DbError>, onNoRows: int) {
    match reply
    case Ok(v) => resp == Response(StatusOK, Some(v))
    case Err(e) => resp.data == None && (e == ErrNoRows ==> resp.status == onNoRows)
                   && (e != ErrNoRows ==> resp.status == StatusInternalServerError)
  }

  /** `resp` answers `reply`: 200 with the value, else 403 for a pq error named in `names` and 500 otherwise. */
  ghost predicate AnswersPq<T>(resp: Response<T>, reply: Result<T, DbError>, names: set<string>) {
    match reply
    case Ok(v) => resp == Response(StatusOK, Some(v))
    case Err(e) => resp.data == None
                   && (e.PqError? && e.codeName in names ==> resp.status == StatusForbidden)
                   && (!(e.PqError? && e.codeName in names) ==> resp.status == StatusInternalServerError)
  }

  /** `resp` answers `reply`: 200 with the value, else 500 whatever the error. */
  ghost predicate AnswersInternal<T>(resp: Response<T>, reply: Result<T, DbError>) {
    match reply
    case Ok(v) => resp == Response(StatusOK, Some(v))
    case Err(_) => resp == Response(StatusInternalServerError, None)
  }
}
