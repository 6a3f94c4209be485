/** The error codes and exceptions the configuration facade raises or passes on. */
module Errors {

  /** The `PwmError` code the facade raises. */
  datatype PwmError = ERROR_INVALID_SECURITY_KEY

  /** An error code with its human-readable detail. */
  datatype ErrorInformation = ErrorInformation(error: PwmError, detail: string)

  /** The exceptions that reach a caller of the facade. */
  datatype Exception =
    | PwmUnrecoverableException(info: ErrorInformation)
    | IllegalStateException(message: string)
    | IllegalArgumentException(message: string)
    | NumberFormatException(message: string)
    | NoSuchElementException
      /** Anything a collaborator outside the model throws. */
    | RuntimeException(message: string)
  {
    /** `Throwable.getMessage()`. */
    function Message(): string {
      match this
      case PwmUnrecoverableException(info) => info.detail
      case IllegalStateException(m) => m
      case IllegalArgumentException(m) => m
      case NumberFormatException(m) => m
      case NoSuchElementException => ""
      case RuntimeException(m) => m
    }

    /** True of an unrecoverable exception carrying the given code. */
    predicate IsUnrecoverable(code: PwmError) {
      PwmUnrecoverableException? && info.error == code
    }
  }
}
