/**
  The error taxonomy: `Error` and its subclasses `ArgumentError`,
  `NotFoundError`, `UnauthorizedError`, `ForbiddenError`, `ValidationError`
  and `HttpRequestError`.

  One class stands for all of them: `kind` records which subclass an object
  was created as, together with the fields only that subclass has. Message,
  log level and kind are fixed at construction; the client message is the
  one field that changes afterwards, through `SetClientMessage`.
 */
module Errors {
  import opened Wrappers
  import opened Strings

  /** `ErrorLogLevel`, with the enum's numeric values. */
  datatype ErrorLogLevel = Default | Information | Warning | Error | Critical
  {
    function Value(): (n: nat)
      ensures n <= 4
    {
      match this
      case Default => 0
      case Information => 1
      case Warning => 2
      case Error => 3
      case Critical => 4
    }
  }

  /** Distinct levels have distinct enum values, in the declared order. */
  lemma LogLevelValues(a: ErrorLogLevel, b: ErrorLogLevel)
    ensures a.Value() == b.Value() <==> a == b
    ensures Default.Value() < Information.Value() < Warning.Value() < ErrorLogLevel.Error.Value() < Critical.Value()
  {
  }

  /** The validation failures: field name to messages, in dictionary order. */
  type FieldErrors = seq<(string, seq<string>)>

  /** Which class an error was created as, with that class's own fields. */
  datatype ErrorKind =
    | Plain
    | Argument
    | NotFound
    | Unauthorized
    | Forbidden
    | Validation(errors: FieldErrors)
    | HttpRequest(statusCode: int, errorContent: Option<string>)

  /** Everything observable about an error object. */
  datatype ErrorState = ErrorState(kind: ErrorKind, message: string, logLevel: ErrorLogLevel,
                                   clientMessage: Option<string>)

  const NotFoundMessage := "Not found"
  const UnauthorizedMessage := "Authorization failed"
  const ForbiddenMessage := "You do not have permission to access this resource"
  const ValidationMessage := "One or more validation errors occurred"
  const HttpRequestMessagePrefix := "Response status code does not indicate success: "

  /** The state of `new Error(message)`. */
  function PlainState(message: string): ErrorState
  {
    ErrorState(Plain, message, Default, None)
  }

  /** The state of `new ArgumentError(message)`: the one subclass that raises its log level. */
  function ArgumentState(message: string): ErrorState
  {
    ErrorState(Argument, message, Warning, None)
  }

  /** The state of `new NotFoundError()`. */
  function NotFoundState(): ErrorState
  {
    ErrorState(NotFound, NotFoundMessage, Default, None)
  }

  /** The state of `new HttpRequestError(statusCode, errorContent)`. */
  function HttpRequestState(statusCode: int, errorContent: Option<string>): ErrorState
  {
    ErrorState(HttpRequest(statusCode, errorContent), HttpRequestMessagePrefix + IntToString(statusCode), Default, None)
  }

  /** The message of an `HttpRequestError` names its status code, which can be read back from it. */
  lemma HttpRequestMessageNamesStatus(statusCode: nat, errorContent: Option<string>)
    ensures var m := HttpRequestState(statusCode, errorContent).message;
      StartsWith(m, HttpRequestMessagePrefix)
      && m[|HttpRequestMessagePrefix|..] == NatToString(statusCode)
      && DigitsValue(m[|HttpRequestMessagePrefix|..]) == statusCode
  {
    var m := HttpRequestState(statusCode, errorContent).message;
    assert m == HttpRequestMessagePrefix + NatToString(statusCode);
    assert m[..|HttpRequestMessagePrefix|] == HttpRequestMessagePrefix;
    assert m[|HttpRequestMessagePrefix|..] == NatToString(statusCode);
    DecimalRoundTrip(statusCode);
  }

  class Error {
    const kind: ErrorKind
    const message: string
    const logLevel: ErrorLogLevel
    var clientMessage: Option<string>

    function State(): ErrorState
      reads this
    {
      ErrorState(kind, message, logLevel, clientMessage)
    }

    /** `new Error(message)`. */
    constructor (message: string)
      ensures State() == PlainState(message)
    {
      this.kind := Plain;
      this.message := message;
      this.logLevel := Default;
      this.clientMessage := None;
    }

    /** `new Error(message, clientMessage)`. */
    constructor WithClientMessage(message: string, clientMessage: string)
      ensures State() == PlainState(message).(clientMessage := Some(clientMessage))
    {
      this.kind := Plain;
      this.message := message;
      this.logLevel := Default;
      this.clientMessage := Some(clientMessage);
    }

    /** `new Error(exception)`: the exception is represented by its message. */
    constructor FromException(exceptionMessage: string)
      ensures State() == PlainState(exceptionMessage)
    {
      this.kind := Plain;
      this.message := exceptionMessage;
      this.logLevel := Default;
      this.clientMessage := None;
    }

    /** `new ArgumentError(errorMessage)`. */
    constructor Argument(errorMessage: string)
      ensures State() == ArgumentState(errorMessage)
    {
      this.kind := ErrorKind.Argument;
      this.message := errorMessage;
      this.logLevel := Warning;
      this.clientMessage := None;
    }

    /** `new NotFoundError()`. */
    constructor NotFound()
      ensures State() == NotFoundState()
    {
      this.kind := ErrorKind.NotFound;
      this.message := NotFoundMessage;
      this.logLevel := Default;
      this.clientMessage := None;
    }

    /** `new NotFoundError(message)`. */
    constructor NotFoundWithMessage(message: string)
      ensures State() == ErrorState(ErrorKind.NotFound, message, Default, None)
    {
      this.kind := ErrorKind.NotFound;
      this.message := message;
      this.logLevel := Default;
      this.clientMessage := None;
    }

    /** `new UnauthorizedError()`. */
    constructor Unauthorized()
      ensures State() == ErrorState(ErrorKind.Unauthorized, UnauthorizedMessage, Default, None)
    {
      this.kind := ErrorKind.Unauthorized;
      this.message := UnauthorizedMessage;
      this.logLevel := Default;
      this.clientMessage := None;
    }

    /** `new UnauthorizedError(errorMessage)`. */
    constructor UnauthorizedWithMessage(errorMessage: string)
      ensures State() == ErrorState(ErrorKind.Unauthorized, errorMessage, Default, None)
    {
      this.kind := ErrorKind.Unauthorized;
      this.message := errorMessage;
      this.logLevel := Default;
      this.clientMessage := None;
    }

    /** `new ForbiddenError()`. */
    constructor Forbidden()
      ensures State() == ErrorState(ErrorKind.Forbidden, ForbiddenMessage, Default, None)
    {
      this.kind := ErrorKind.Forbidden;
      this.message := ForbiddenMessage;
      this.logLevel := Default;
      this.clientMessage := None;
    }

    /** `new ForbiddenError(errorMessage)`. */
    constructor ForbiddenWithMessage(errorMessage: string)
      ensures State() == ErrorState(ErrorKind.Forbidden, errorMessage, Default, None)
    {
      this.kind := ErrorKind.Forbidden;
      this.message := errorMessage;
      this.logLevel := Default;
      this.clientMessage := None;
    }

    /**
      `new ValidationError(errors)`, for both dictionary constructors: a list
      of messages and an array of messages are the same sequence here.
     */
    constructor Validation(errors: FieldErrors)
      ensures State() == ErrorState(ErrorKind.Validation(errors), ValidationMessage, Default, None)
    {
      this.kind := ErrorKind.Validation(errors);
      this.message := ValidationMessage;
      this.logLevel := Default;
      this.clientMessage := None;
    }

    /** `new ValidationError(propertyName, errorMessage)`: one field with one message. */
    constructor ValidationOf(propertyName: string, errorMessage: string)
      ensures State() == ErrorState(ErrorKind.Validation([(propertyName, [errorMessage])]), ValidationMessage, Default, None)
    {
      this.kind := ErrorKind.Validation([(propertyName, [errorMessage])]);
      this.message := ValidationMessage;
      this.logLevel := Default;
      this.clientMessage := None;
    }

    /** `new HttpRequestError(statusCode, errorContent)`. */
    constructor HttpRequest(statusCode: int, errorContent: Option<string>)
      ensures State() == HttpRequestState(statusCode, errorContent)
    {
      this.kind := ErrorKind.HttpRequest(statusCode, errorContent);
      this.message := HttpRequestMessagePrefix + IntToString(statusCode);
      this.logLevel := Default;
      this.clientMessage := None;
    }

    /**
      `SetClientMessage`: overwrites the client message of this very object
      and hands the same object back; nothing else about it changes.
     */
    method SetClientMessage(m: string) returns (same: Error)
      modifies this
      ensures same == this
      ensures State() == old(State()).(clientMessage := Some(m))
    {
      clientMessage := Some(m);
      same := this;
    }
  }
}
