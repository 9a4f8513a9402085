/**
  The token maker's interface (token/maker.go) as far as the middleware and the
  handlers see it: verifying a token yields the payload or one of two errors.
  Token creation and the PASETO implementation are not part of this model.
 */
module Token {

  datatype TokenError = ErrInvalidToken | ErrExpiredToken

  /** The authenticated payload; the handlers read only its user name. */
  datatype Payload = Payload(username: string)
}
