/**
  The errors that the store's calls return, as far as the handlers tell them
  apart: `sql.ErrNoRows` by identity, a `*pq.Error` by the name of its SQLSTATE
  code, the combined error `execTx` builds when a rollback fails, and anything else.
 */
module Errors {

  datatype DbError =
    | ErrNoRows
    | PqError(codeName: string)
    | TxRollbackFailed(txErr: DbError, rbErr: DbError)
    | OtherError(message: string)

  const UniqueViolation: string := "unique_violation"
  const ForeignKeyViolation: string := "foreign_key_violation"

  /** `pqErr, ok := err.(*pq.Error)` succeeds and `pqErr.Code.Name()` is one of `names`. */
  predicate IsPqErrorIn(e: DbError, names: set<string>) {
    e.PqError? && e.codeName in names
  }
}
