/** JSON values: what `json.loads` hands to the type inferencer, and what the converter emits. */
module JsonValues {
  import opened Wrappers

  /** A decoded JSON value. Objects keep their members in document order, as Python's dicts do. */
  datatype Json =
    | Null
    | Bool(b: bool)
    | Int(i: int)
    | Float(literal: string)  // a JSON number with a fraction or exponent; only its kind matters
    | Str(s: string)
    | Arr(items: seq<Json>)
    | Obj(members: seq<(string, Json)>)

  /** A Python dict with string keys, in insertion order. */
  type Dict = seq<(string, Json)>

  /** A Python `str | None` as it is serialised: `None` becomes `null`. */
  function OptStr(o: Option<string>): Json {
    match o
    case None => Null
    case Some(s) => Str(s)
  }
}

/** The conditions that abort the whole conversion. */
module Failures {
  import opened Wrappers
  import opened JsonValues

  datatype Error =
    | MissingTitle               // a section heading without text
    | MissingTableBody           // an attribute table without body rows
    | MalformedRow               // an attribute table row with too few cells
    | UnknownMethod(token: string)
    | MissingPath                // a URI example line without a space after the method
    | InvalidJson                // the example response is not JSON
    | UnsupportedValue(value: Json)
    | MissingType(name: string)  // a parameter whose type cell has no text

  type Outcome<T> = Result<T, Error>

  /** Puts `prefix` in front of a successful list; an error stays as it is. */
  function Prepend<T>(prefix: seq<T>, r: Outcome<seq<T>>): Outcome<seq<T>> {
    match r
    case Ok(rest) => Ok(prefix + rest)
    case Err(e) => Err(e)
  }

  lemma PrependNothing<T>(r: Outcome<seq<T>>)
    ensures Prepend([], r) == r
  {
    if r.Ok? {
      assert [] + r.value == r.value;
    }
  }

  lemma PrependTwice<T>(x: seq<T>, y: seq<T>, r: Outcome<seq<T>>)
    ensures Prepend(x, Prepend(y, r)) == Prepend(x + y, r)
  {
    if r.Ok? {
      assert x + (y + r.value) == (x + y) + r.value;
    }
  }
}
