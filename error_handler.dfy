/** Error classification of `src/utils/error-handler.ts`: `parseApiError` maps
    a thrown value to an `ErrorDetails` record, `logError` decides whether the
    record is written to the console, and `handleApiError` settles a request
    into its value, a fallback, or the same error thrown again. A thrown value
    is one of the kinds the classifier tells apart. */
module ErrorHandler {
  import opened Wrappers
  import opened Strings

  /** Per-field messages a server sends with a validation failure. */
  type ValidationErrors = map<string, seq<string>>

  /** The `data` an `ApiError` carries: nothing, `null`, a primitive, or an
      object (arrays included) whose `errors` property may be missing. */
  datatype ErrorData = NoData | NullData | Primitive | ObjectData(errors: Option<ValidationErrors>)

  /** What may be thrown: an `ApiError` of the api client, a `TypeError`,
      another `Error`, or a value that is not an `Error` at all. */
  datatype ErrorValue =
    | ApiError(message: string, status: int, data: ErrorData)
    | TypeError(message: string)
    | OtherError(message: string)
    | NonError

  /** `ErrorDetails`; an optional property that is left unset is `None`. */
  datatype ErrorDetails = ErrorDetails(
    message: string,
    code: Option<string>,
    status: Option<int>,
    isNetworkError: Option<bool>,
    isAuthError: Option<bool>,
    isValidationError: Option<bool>,
    validationErrors: Option<ValidationErrors>)

  const NetworkMessage := "Network error. Please check your connection and try again."
  const UnexpectedMessage := "An unexpected error occurred"

  predicate IsAuthStatus(status: int) {
    status == 401 || status == 403
  }

  predicate IsValidationStatus(status: int) {
    status == 422 || status == 400
  }

  /** `parseApiError(error)`. An `ApiError` keeps its message and status, is an
      auth error exactly for 401 and 403 and a validation error exactly for 400
      and 422, and carries `data.errors` only when it is a validation error
      whose data is a non-null object. A `TypeError` mentioning "fetch" is a
      network error with a fixed message. Any other `Error` keeps its message,
      and anything else gets a generic one. */
  function ParseApiError(error: ErrorValue): (d: ErrorDetails)
    ensures d.code.None?
    ensures error.ApiError? ==>
      && d.message == error.message && d.status == Some(error.status)
      && d.isAuthError == Some(IsAuthStatus(error.status))
      && d.isValidationError == Some(IsValidationStatus(error.status))
      && d.isNetworkError.None?
      && (d.validationErrors.Some? ==> IsValidationStatus(error.status) && error.data.ObjectData? && d.validationErrors == error.data.errors)
      && (IsValidationStatus(error.status) && error.data.ObjectData? ==> d.validationErrors == error.data.errors)
    ensures !error.ApiError? ==> d.status.None? && d.isAuthError.None? && d.isValidationError.None? && d.validationErrors.None?
    ensures error.TypeError? && Contains(error.message, "fetch") ==>
      d.message == NetworkMessage && d.isNetworkError == Some(true)
    ensures (error.TypeError? && !Contains(error.message, "fetch")) || error.OtherError? ==>
      d.message == error.message && d.isNetworkError.None?
    ensures error.NonError? ==> d.message == UnexpectedMessage && d.isNetworkError.None?
  {
    match error
    case ApiError(message, status, data) =>
      var isAuthError := IsAuthStatus(status);
      var isValidationError := IsValidationStatus(status);
      ErrorDetails(message, None, Some(status), None, Some(isAuthError), Some(isValidationError),
        if isValidationError && data.ObjectData? then data.errors else None)
    case TypeError(message) =>
      if Contains(message, "fetch") then ErrorDetails(NetworkMessage, None, None, Some(true), None, None, None)
      else ErrorDetails(message, None, None, None, None, None, None)
    case OtherError(message) => ErrorDetails(message, None, None, None, None, None, None)
    case NonError => ErrorDetails(UnexpectedMessage, None, None, None, None, None, None)
  }

  /** No error is both an auth error and a validation error, and a network
      error is never either. */
  lemma ClassesDisjoint(error: ErrorValue)
    ensures var d := ParseApiError(error);
      && !(d.isAuthError == Some(true) && d.isValidationError == Some(true))
      && (d.isNetworkError == Some(true) ==> d.isAuthError.None? && d.isValidationError.None? && error.TypeError?)
  {
  }

  /** `logError(error)`: the details written to the console, or `None` when
      the call logs nothing, which happens exactly in development for auth
      and validation errors. */
  function LogError(error: ErrorValue, isDevelopment: bool): (entry: Option<ErrorDetails>)
    ensures entry.None? <==>
      isDevelopment && error.ApiError? && (IsAuthStatus(error.status) || IsValidationStatus(error.status))
    ensures entry.Some? ==> entry.value == ParseApiError(error)
  {
    var details := ParseApiError(error);
    if isDevelopment && (details.isAuthError == Some(true) || details.isValidationError == Some(true)) then None
    else Some(details)
  }

  /** How an awaited promise settled. */
  datatype Settled<T> = Resolved(value: T) | Rejected(error: ErrorValue)

  /** The options of `handleApiError`; `rethrow` defaults to false and an
      absent fallback is `undefined`. */
  datatype HandleOptions<T> = HandleOptions(hasOnError: bool, fallbackValue: Option<T>, rethrow: bool)

  /** `handleApiError(promise, options)` in an environment that is, or is not,
      development. A resolved promise gives its value and has no other effect.
      A rejection is logged, reported to `onError` (when given) with the parsed
      details, and then either thrown again unchanged (when `rethrow` is set)
      or turned into the fallback value. */
  method HandleApiError<T>(settled: Settled<T>, options: HandleOptions<T>, isDevelopment: bool)
    returns (result: Settled<Option<T>>, logged: Option<ErrorDetails>, reported: Option<ErrorDetails>)
    ensures settled.Resolved? ==> result == Resolved(Some(settled.value)) && logged.None? && reported.None?
    ensures settled.Rejected? ==>
      && logged == LogError(settled.error, isDevelopment)
      && reported == (if options.hasOnError then Some(ParseApiError(settled.error)) else None)
      && result == (if options.rethrow then Rejected(settled.error) else Resolved(options.fallbackValue))
    ensures !options.rethrow ==> result.Resolved?
  {
    match settled
    case Resolved(value) =>
      return Resolved(Some(value)), None, None;
    case Rejected(error) =>
      var errorDetails := ParseApiError(error);
      logged := LogError(error, isDevelopment);
      reported := None;
      if options.hasOnError {
        reported := Some(errorDetails);
      }
      if options.rethrow {
        return Rejected(error), logged, reported;
      }
      result := Resolved(options.fallbackValue);
  }
}
