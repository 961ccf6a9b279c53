/** The loosely typed JavaScript values the dashboard receives from the
    spreadsheet API and keeps in its configuration object, together with the
    two pieces of JavaScript semantics the dashboard code relies on: truthiness and the
    value-returning `||` operator.

    Numbers are modelled as integers: every number the dashboard code compares
    or computes with is integral, and NaN is not modelled. */
module JsValues {

  datatype Option<+T> = None | Some(value: T)

  /** A settled promise or a completed `try`: a value, or an `Error` carrying
      its `message`. Every error the modelled code throws is an `Error`. */
  datatype Result<+T> = Ok(value: T) | Err(message: string)

  datatype JsValue =
    | JUndefined
    | JNull
    | JBool(b: bool)
    | JNum(n: int)
    | JStr(s: string)
    | JArr(items: seq<JsValue>)
    | JObj(fields: map<string, JsValue>)

  /** `!!v`: false, 0, "", null and undefined are falsy; everything else,
      including every object and array, is truthy. */
  predicate Truthy(v: JsValue) {
    match v
    case JUndefined => false
    case JNull => false
    case JBool(b) => b
    case JNum(n) => n != 0
    case JStr(s) => s != ""
    case JArr(_) => true
    case JObj(_) => true
  }

  /** `a || b`: the first operand when it is truthy, otherwise the second. */
  function Or(a: JsValue, b: JsValue): (r: JsValue)
    ensures Truthy(r) <==> Truthy(a) || Truthy(b)
    ensures Truthy(a) ==> r == a
    ensures !Truthy(a) ==> r == b
  {
    if Truthy(a) then a else b
  }

  /** `typeof v === 'object'` (true of null, arrays and plain objects). */
  predicate TypeofObject(v: JsValue) {
    v.JNull? || v.JArr? || v.JObj?
  }

  /** Property read `v[key]` on a value that is not null or undefined. Only
      the own fields of plain objects are modelled; every other property
      read (a string's `length`, an array's methods) yields undefined. */
  function Get(v: JsValue, key: string): (r: JsValue)
    ensures !v.JObj? ==> r == JUndefined
    ensures v.JObj? && key !in v.fields ==> r == JUndefined
  {
    if v.JObj? && key in v.fields then v.fields[key] else JUndefined
  }
}
