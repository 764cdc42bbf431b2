/**
  `LoggerExtensions.LogResult`: the one log entry written for a result, with
  its severity and its rendered message. The logger itself is not modelled:
  the entry is returned instead of written.
 */
module Logging {
  import opened Wrappers
  import opened Strings
  import opened Errors
  import opened Results
  import opened HttpRequestHelper

  /** The `Microsoft.Extensions.Logging` levels `LogResult` writes at. */
  datatype LogLevel = LogInformation | LogWarning | LogError | LogCritical

  datatype LogEntry = LogEntry(level: LogLevel, text: string)

  /** `"{key}: {v1, v2, …}"` for one field of a validation error. */
  function FieldText(field: (string, seq<string>)): string
  {
    field.0 + ": " + Join(field.1, ", ")
  }

  /** All fields of a validation error, in dictionary order, joined by `". "`. */
  function ValidationText(errors: FieldErrors): string
  {
    Join(seq(|errors|, i requires 0 <= i < |errors| => FieldText(errors[i])), ". ")
  }

  /** The log level an error asks for, when it asks for one. */
  function Requested(level: ErrorLogLevel): Option<LogLevel>
  {
    match level
    case Default => None
    case Information => Some(LogInformation)
    case Warning => Some(LogWarning)
    case Error => Some(LogError)
    case Critical => Some(LogCritical)
  }

  /** Only the error-kind part of an error decides how it is logged, with its message and log level. */
  function LogFailure(e: ErrorState, action: string): LogEntry
  {
    match e.kind
    case NotFound => LogEntry(LogWarning, action + " failed. " + e.message)
    case Unauthorized => LogEntry(LogWarning, action + " failed. " + e.message)
    case Forbidden => LogEntry(LogWarning, action + " failed. " + e.message)
    case Validation(errors) => LogEntry(LogWarning, action + " failed. Validation errors: " + ValidationText(errors))
    case _ =>
      match Requested(e.logLevel)
      case Some(level) => LogEntry(level, action + ". " + e.message)
      case None => LogEntry(LogError, action + " failed. Error: " + e.message)
  }

  /** The entry written for a failure never reads as the entry written for a success. */
  lemma FailureTextDiffers(e: ErrorState, action: string)
    ensures LogFailure(e, action).text != action + " succeeded"
  {
    var t := LogFailure(e, action).text;
    var s := action + " succeeded";
    assert s[|action|] == ' ' && s[|action| + 1] == 's';
    if e.kind.NotFound? || e.kind.Unauthorized? || e.kind.Forbidden? || e.kind.Validation? || Requested(e.logLevel).None? {
      assert t[|action| + 1] == 'f';
    } else {
      assert t[|action|] == '.';
    }
  }

  /**
    `logger.LogResult(result, actionDescription)`: exactly one entry, and it
    is the success entry exactly when the result is a success.
   */
  function LogResult<T>(result: Result<T>, action: string): (entry: LogEntry)
    reads if result.Fail? then {result.error} else {}
    ensures entry == LogEntry(LogInformation, action + " succeeded") <==> result.IsSuccess()
    ensures result.Fail? ==> entry == LogFailure(result.error.State(), action)
  {
    match result
    case Success(_) => LogEntry(LogInformation, action + " succeeded")
    case Fail(e) =>
      FailureTextDiffers(e.State(), action);
      LogFailure(e.State(), action)
  }

  /**
    The severity rule: a success is information; the not-found, unauthorized,
    forbidden and validation errors are warnings whatever their level; any
    other error is logged at its own level, or at Error when it has none.
    The client message plays no part.
   */
  lemma SeverityRule(e: ErrorState, action: string)
    ensures e.kind.NotFound? || e.kind.Unauthorized? || e.kind.Forbidden? || e.kind.Validation?
            ==> LogFailure(e, action).level == LogWarning
    ensures !(e.kind.NotFound? || e.kind.Unauthorized? || e.kind.Forbidden? || e.kind.Validation?)
            ==> LogFailure(e, action).level == Requested(e.logLevel).GetOr(LogError)
    ensures LogFailure(e.(clientMessage := None), action) == LogFailure(e, action)
  {
  }

  /**
    How a failed call is logged: a 404 as a warning, and every other
    failure (an exception, any other failure status, a JSON `null`) as an
    error, never at another level.
   */
  lemma FailedCallLogLevel<T>(reply: Reply<T>, read: Reading<T>, action: string)
    requires Classify(reply, read).Rejected?
    ensures LogFailure(Classify(reply, read).error, action).level == LogWarning <==> reply.Answered? && reply.statusCode == 404
    ensures LogFailure(Classify(reply, read).error, action).level in {LogWarning, LogError}
  {
    ClassifyErrorKinds(reply, read);
  }

  /** A failure is logged as information only when its error explicitly asks for that level. */
  lemma InformationOnlyWhenAsked(e: ErrorState, action: string)
    requires LogFailure(e, action).level == LogInformation
    ensures e.logLevel == Information
    ensures !(e.kind.NotFound? || e.kind.Unauthorized? || e.kind.Forbidden? || e.kind.Validation?)
  {
  }

  /** An `ArgumentError` is logged as a warning with its message. */
  lemma ArgumentErrorLoggedAsWarning(message: string, action: string)
    ensures LogFailure(ArgumentState(message), action) == LogEntry(LogWarning, action + ". " + message)
  {
  }

  /** An `HttpRequestError` keeps the default level and is therefore logged as an error. */
  lemma HttpRequestErrorLoggedAsError(statusCode: int, content: Option<string>, action: string)
    ensures LogFailure(HttpRequestState(statusCode, content), action).level == LogError
  {
  }

  /** A plain error keeps the default level and is logged as an error, with its message. */
  lemma PlainErrorLoggedAsError(message: string, action: string)
    ensures LogFailure(PlainState(message), action) == LogEntry(LogError, action + " failed. Error: " + message)
  {
  }

  /** A single-field validation error renders as `"field: message"`. */
  lemma SingleFieldValidationText(field: string, message: string)
    ensures ValidationText([(field, [message])]) == field + ": " + message
  {
    var items := seq(1, i requires 0 <= i < 1 => FieldText([(field, [message])][i]));
    assert items == [field + ": " + message];
  }
}
