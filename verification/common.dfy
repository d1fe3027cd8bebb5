/** Failure-carrying datatypes shared by the other modules, and Python's
    truthiness of an optional string (`None` and `""` are both falsy). */
module Common {

  datatype Option<+T> = None | Some(value: T) {
    function GetOr(default: T): T {
      match this
      case Some(v) => v
      case None => default
    }
  }

  datatype Result<+T, +E> = Success(value: T) | Failure(error: E)

  type Byte = b: int | 0 <= b < 256

  /** An `HTTPException(status_code, detail)` raised by a route handler. */
  datatype HttpError = HttpError(status: int, detail: string)

  /** `bool(x)` for an `x: str | None`. */
  predicate Truthy(x: Option<string>) {
    x.Some? && x.value != ""
  }

  predicate StartsWith(s: string, prefix: string) {
    |prefix| <= |s| && s[..|prefix|] == prefix
  }

  /** The parts of an incoming request the routes read: its cookies and
      the scheme of its URL. */
  datatype Request = Request(cookies: map<string, string>, scheme: string)

  /** `d.get(key)` on a dictionary of strings. */
  function Lookup(d: map<string, string>, key: string): (r: Option<string>)
    ensures r.Some? <==> key in d
    ensures r.Some? ==> r.value == d[key]
  {
    if key in d then Some(d[key]) else None
  }
}
