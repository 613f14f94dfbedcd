/** The .NET exception types the request pipeline tells apart, with their
    subclass relations flattened into predicates. */
module Exceptions {

  datatype ExceptionKind =
    | KeyNotFound
    | Argument
    | ArgumentNull
    | ArgumentOutOfRange
    | InvalidCast
    | InvalidOperation
    | NullReference
    | Format
    | TokenExpired
    | TokenInvalidSignature
    | TokenInvalidIssuer
    | TokenInvalidAudience
    /** `SecurityTokenException` itself or a subclass other than the four above. */
    | TokenOther
    /** Any exception type not derived from one of the types above. */
    | Other(typeName: string)

  datatype Exception = Exception(kind: ExceptionKind, message: string)

  /** `ex is ArgumentException`: the base type and its subclasses. */
  predicate IsArgumentException(k: ExceptionKind) {
    k == Argument || k == ArgumentNull || k == ArgumentOutOfRange
  }

  /** `ex is SecurityTokenException` (Microsoft.IdentityModel.Tokens). */
  predicate IsSecurityTokenException(k: ExceptionKind) {
    k == TokenExpired || k == TokenInvalidSignature || k == TokenInvalidIssuer
    || k == TokenInvalidAudience || k == TokenOther
  }
}
