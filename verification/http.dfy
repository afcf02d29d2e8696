/** API responses: the `ok`/`fail` envelopes and the error codes of the API. */
module Http {

  datatype ErrorCode =
    | Unauthorized
    | Forbidden
    | InvalidInput
    | NotFound
    | ArchiveRuntimeNotReady
    | RateLimitedSoft
    | InvalidCode
    | CodeExpired
    | NotAllowedEmail
    | InternalError

  /** The `details` of an error response, where the model needs them. */
  datatype ErrorDetail =
    | NoDetail
    | RetryAfterMs(ms: int)
    | DetailCode(code: string)
    | SchemaIssues

  datatype ApiError = ApiError(code: ErrorCode, status: int, detail: ErrorDetail)

  /** `ok(data)` or `fail(code, message, status, details)`; messages are not modelled. */
  datatype Response<+T> = Ok(data: T) | Fail(error: ApiError)
}
