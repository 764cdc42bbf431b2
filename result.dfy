/**
  `Result<TValue>`: a success holding a value, which may be null, or a
  failure holding an error. The accessors that throw
  `InvalidOperationException` in the wrong state return `InvalidOperation`.
 */
module Results {
  import opened Wrappers
  import opened Errors

  /** The outcome of reading an accessor that may throw `InvalidOperationException`. */
  datatype Checked<T> = Got(got: T) | InvalidOperation

  /**
    The reachable states of the struct: `Success` with the stored value (None
    for null) or `Fail` with its error. The default struct is `Success(None)`
    because `ResultState.Success` is the enum's zero.
   */
  datatype Result<T> = Success(value: Option<T>) | Fail(error: Error)
  {
    /** The `Success` property. */
    predicate IsSuccess()
    {
      Success?
    }

    /** The `Value` property: the value of a success, when it is not null. */
    function Value(): (r: Checked<T>)
      ensures r.Got? <==> Success? && value.Some?
      ensures r.Got? ==> Success(Some(r.got)) == this
    {
      if Success? && value.Some? then Got(value.value) else InvalidOperation
    }

    /** The `Error` property: the error of a failure. */
    function GetError(): (r: Checked<Error>)
      ensures r.Got? <==> Fail?
      ensures r.Got? ==> Fail(r.got) == this
    {
      if Fail? then Got(error) else InvalidOperation
    }

    /** `GetNullableValue`: the stored value, whatever the state; a failure stores none. */
    function GetNullableValue(): (r: Option<T>)
      ensures Success? ==> r == value
      ensures Fail? ==> r.None?
    {
      if Success? then value else None
    }
  }

  /** `new Result<TValue>(value)` and the implicit conversion from `TValue`. */
  function FromValue<T>(value: Option<T>): (r: Result<T>)
    ensures r.IsSuccess() && r.GetNullableValue() == value
    ensures r.Value() == if value.Some? then Got(value.value) else InvalidOperation
  {
    Success(value)
  }

  /** `new Result<TValue>(error)` and the implicit conversion from `Error`. */
  function FromError<T>(e: Error): (r: Result<T>)
    ensures !r.IsSuccess() && r.GetError() == Got(e)
    ensures r.Value() == InvalidOperation
  {
    Fail(e)
  }

  /** `default(Result<TValue>)`: reports success, yet `Value` throws. */
  function DefaultResult<T>(): (r: Result<T>)
    ensures r.IsSuccess() && r.Value() == InvalidOperation && r.GetError() == InvalidOperation
  {
    Success(None)
  }

  /** The implicit conversion to `TValue`: `Value`, throwing in the same cases. */
  function ToValue<T>(r: Result<T>): (v: Checked<T>)
    ensures v.Got? <==> r.IsSuccess() && r.GetNullableValue().Some?
  {
    r.Value()
  }

  /** Exactly one of `Value` and `Error` can be read, and on a null success neither can. */
  lemma AccessorsExclusive<T>(r: Result<T>)
    ensures !(r.Value().Got? && r.GetError().Got?)
    ensures r.GetError().Got? <==> !r.IsSuccess()
    ensures r.IsSuccess() && r.GetNullableValue().None? ==> r.Value() == InvalidOperation && r.GetError() == InvalidOperation
  {
  }

  /** Building from a value or from an error and then reading it back gives it back. */
  lemma ConstructorsRoundTrip<T>(v: T, e: Error)
    ensures ToValue(FromValue(Some(v))) == Got(v)
    ensures FromError<T>(e).GetError() == Got(e)
    ensures FromValue<T>(None).IsSuccess() && ToValue(FromValue<T>(None)) == InvalidOperation
  {
  }
}
