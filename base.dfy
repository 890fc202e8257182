/** Failure-carrying wrappers shared by every module of the model. */
module Base {

  /** Python's `None` / value. */
  datatype Option<+T> = None | Some(value: T)
  {
    function GetOr(default: T): T
    {
      match this
      case Some(v) => v
      case None => default
    }
  }

  /** The outcome of a FastAPI handler or dependency: a value, or the
      `HTTPException(status_code, detail)` it raises. */
  datatype Outcome<+T> = Ok(value: T) | Fail(status: int, detail: string)

  /** One octet of a Python `bytes` value. */
  newtype byte = b: int | 0 <= b < 256

  /** Python truthiness of an optional string: `None` and `""` are false. */
  predicate Truthy(s: Option<string>)
  {
    s.Some? && s.value != ""
  }

  /** `a or b` on optional strings. */
  function OrElse(a: Option<string>, b: Option<string>): (r: Option<string>)
    ensures Truthy(a) ==> r == a
    ensures !Truthy(a) ==> r == b
  {
    if Truthy(a) then a else b
  }
}
