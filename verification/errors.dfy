/** The exceptions that cross the boundary between the impersonation service and
    the HTTP controller, and the Result type that carries them.

    PHP control flow by exception becomes an explicit `Err` value: a member that
    "throws E" returns `Err(E)`; a member that "returns v" returns `Ok(v)`.
 */
module Errors {

  /** The exception kinds the controller distinguishes. */
  datatype Exception =
      /** App\Exceptions\InvalidRequestException: a message plus the list of
          violation strings that the 400 response reports as `details`. */
    | InvalidRequestException(message: string, violations: seq<string>)
      /** App\Exceptions\ImpersonationException. */
    | ImpersonationException(message: string)
      /** App\Exceptions\SecretNotFoundException. */
    | SecretNotFoundException(message: string)
      /** \JsonException raised by json_decode with JSON_THROW_ON_ERROR. */
    | JsonException
      /** Any other \Throwable: a PHP Error or TypeError, or an SDK failure that
          is not of the exception family the service catches. */
    | OtherThrowable(message: string)

  datatype Result<+T> = Ok(value: T) | Err(error: Exception)
}
