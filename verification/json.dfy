/** JSON values as the mapper builds them and the mock receiver stores them. */
module Json {
  import opened Base
  import opened Assoc

  /**
   A JSON value. Objects keep their keys in insertion order, as Python dicts do;
   integers and floats are kept apart, as Python's `json` module keeps them.
   */
  datatype Json =
    | JNull
    | JBool(boolean: bool)
    | JInt(integer: int)
    | JNum(number: real)
    | JStr(text: string)
    | JArr(items: seq<Json>)
    | JObj(fields: Dict<string, Json>)

  type Obj = Dict<string, Json>

  /** Python truthiness of a decoded JSON value (`if value:`). */
  predicate Truthy(j: Json) {
    match j
    case JNull => false
    case JBool(b) => b
    case JInt(n) => n != 0
    case JNum(x) => x != 0.0
    case JStr(s) => |s| > 0
    case JArr(items) => |items| > 0
    case JObj(fields) => |fields| > 0
  }

  /** Whether Python can use the decoded value as a dict key (lists and dicts cannot). */
  predicate Hashable(j: Json) {
    !j.JArr? && !j.JObj?
  }

  /** `j[k]` when `j` is an object holding `k`. */
  function Field(j: Json, k: string): Option<Json> {
    if j.JObj? then Get(j.fields, k) else None
  }

  /** `j[k]`, reading a missing key or a non-object as null. */
  function At(j: Json, k: string): Json {
    Field(j, k).GetOr(JNull)
  }

  /** The elements of an array, none for anything else. */
  function Items(j: Json): seq<Json> {
    if j.JArr? then j.items else []
  }
}
