/**
 * The few pieces of Python/JSON value semantics the providers and the
 * accuracy store depend on: optional values, `dict.get(key, default)`,
 * and truthiness of the values the code tests with a bare `if`.
 */
module Json {

  /** A value that may be absent (a missing key or Python's None). */
  datatype Option<+T> = None | Some(value: T) {
    /** `d.get(key, default)` when the key may be missing. */
    function GetOr(default: T): T {
      match this
      case Some(v) => v
      case None => default
    }
  }

  /**
   * One key of a Python dict as `dict.get` sees it: the key is missing,
   * present and holding None, or present with a value.
   */
  datatype Field<+T> = Missing | Null | Present(value: T)

  /** `d.get(key, default)`: the default only replaces a MISSING key. */
  function Get<T>(f: Field<T>, default: T): (r: Option<T>)
    ensures r.None? <==> f.Null?
    ensures f.Missing? ==> r == Some(default)
  {
    match f
    case Missing => Some(default)
    case Null => None
    case Present(v) => Some(v)
  }

  /** `d.get(key)`: None both for a missing key and for a key holding None. */
  function GetOpt<T>(f: Field<T>): (r: Option<T>)
    ensures r.Some? <==> f.Present?
    ensures f.Present? ==> r.value == f.value
  {
    if f.Present? then Some(f.value) else None
  }

  /**
   * A key written from an optional value (`{"k": x}` with x possibly None):
   * the key is always present, so a later `get` never applies its default.
   */
  function FromOption<T(!new)>(o: Option<T>): (f: Field<T>)
    ensures !f.Missing?
    ensures forall d :: Get(f, d) == o
  {
    match o
    case None => Null
    case Some(v) => Present(v)
  }

  /** Python truthiness of an optional number: None and 0 are false. */
  predicate TruthyReal(x: Option<real>) {
    x.Some? && x.value != 0.0
  }

  /** Python truthiness of an optional flag: None and False are false. */
  predicate TruthyBool(x: Option<bool>) {
    x.Some? && x.value
  }

  /** Python truthiness of an optional string: None and "" are false. */
  predicate TruthyString(x: Option<string>) {
    x.Some? && x.value != ""
  }
}
