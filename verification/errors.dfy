/** The exceptions the prepared-statement layer raises or lets through,
    and the failure-compatible wrappers the rest of the model returns. */
module Errors {

  datatype Error =
    /** PreparedStatementException: a registered parameter is still untyped. */
    | PreparedStatementException(msg: string)
    /** QueryNotPrepared: execute on a queryset that was never prepared. */
    | QueryNotPrepared(msg: string)
    /** IncorrectBindParameter: duplicate parameter name, or wrong execute keys. */
    | IncorrectBindParameter(msg: string)
    /** OperationOnPreparedStatement: a guarded queryset operation after prepare. */
    | OperationOnPreparedStatement(msg: string)
    /** NotSupportedLookup: a bind parameter on an IsNull or In lookup. */
    | NotSupportedLookup(msg: string)
    /** Django's ValidationError while cleaning the value of one parameter. */
    | ValidationError(msg: string)
    /** Django's ImproperlyConfigured: no database vendor given. */
    | ImproperlyConfigured(msg: string)
    /** NotImplementedError from an operations class without a dialect. */
    | NotImplemented
    /** ValueError: a compiler asked for without alias and without connection. */
    | ValueError(msg: string)
    /** KeyError from a dictionary lookup of a missing key. */
    | KeyError
    /** TypeError: an operation applied to a value of the wrong type (None). */
    | TypeError
    /** AttributeError: an attribute read on None. */
    | AttributeError
    /** IndexError: str.format ran out of positional arguments. */
    | IndexError
    /** ValueError from str.format or %-formatting on a malformed template. */
    | FormatError
    /** Django's ConnectionDoesNotExist for an unknown database alias. */
    | ConnectionDoesNotExist(alias: string)

  datatype Result<+T> = Success(value: T) | Failure(error: Error) {
    predicate IsFailure() { Failure? }

    function PropagateFailure<U>(): Result<U>
      requires Failure?
    {
      Failure(error)
    }

    function Extract(): T
      requires Success?
    {
      value
    }
  }

  /** The outcome of a call that returns nothing but may raise. */
  datatype Outcome = Pass | Fail(error: Error) {
    predicate IsFailure() { Fail? }

    function PropagateFailure(): Outcome
      requires Fail?
    {
      this
    }
  }

  datatype Option<+T> = None | Some(value: T)
}
