/** JavaScript values as the application moves them between its stores,
    its server and its pages: JSON data whose numbers are integers.

    `undefined` is not a value of its own here: reading an absent property
    yields `JNull`, and the places in the application that read such a
    property (`||`, `Array.isArray`) treat the two alike. The store read's
    `=== null` test is unaffected for another reason: a store's `getItem`
    yields `null`, never `undefined`, for an absent key. */
module JsValue {

  datatype Option<+T> = None | Some(value: T)

  datatype Json =
    | JNull
    | JBool(b: bool)
    | JInt(n: int)
    | JStr(s: string)
    | JArr(items: seq<Json>)
    | JObj(fields: map<string, Json>)

  /** An exception value, distinguished by the constructor that raised it. */
  datatype JsError =
    | TypeError(message: string)   // raised by the engine: calling undefined, reading a property of null
    | Error(message: string)       // `throw new Error(...)` in the application itself
    | StorageError                 // a backing store operation rejected
    | SyntaxError                  // `JSON.parse` of text that is not JSON

  /** How an expression finishes: with a value, or by throwing. */
  datatype Completion<+T> = Normal(value: T) | Throw(error: JsError)

  /** A setter argument: a new value, or a function from the current value
      to the new one (`value instanceof Function ? value(current) : value`). */
  datatype Update = Literal(v: Json) | Updater(f: Json -> Json)

  function Resolve(u: Update, current: Json): Json
  {
    match u
    case Literal(v) => v
    case Updater(f) => f(current)
  }

  /** JavaScript truthiness, the test behind `||`, `!` and `if (x)`. */
  predicate Truthy(j: Json)
  {
    match j
    case JNull => false
    case JBool(b) => b
    case JInt(n) => n != 0
    case JStr(s) => s != ""
    case JArr(_) => true
    case JObj(_) => true
  }

  /** `a || b` */
  function Or(a: Json, b: Json): Json
  {
    if Truthy(a) then a else b
  }

  /** `j[name]` (or `j?.name`) for the property names this application
      reads; a value that is not an object has none of them. */
  function Member(j: Json, name: string): Json
  {
    if j.JObj? && name in j.fields then j.fields[name] else JNull
  }

  /** `j[i]` is an object with the property `name`. */
  predicate ItemHas(j: Json, i: nat, name: string)
  {
    j.JArr? && i < |j.items| && j.items[i].JObj? && name in j.items[i].fields
  }

  /** The own enumerable properties that `{...j}` copies: an object's
      fields, an array's elements or a string's characters under their
      decimal indices, and nothing for null, booleans and numbers. */
  function Spread(j: Json): map<string, Json>
  {
    match j
    case JObj(m) => m
    case JArr(items) => Indexed(items)
    case JStr(s) => Indexed(seq(|s|, i requires 0 <= i < |s| => JStr([s[i]])))
    case _ => map[]
  }

  function Indexed(items: seq<Json>): map<string, Json>
    decreases |items|
  {
    if |items| == 0 then map[]
    else Indexed(items[..|items| - 1])[DecimalString(|items| - 1) := items[|items| - 1]]
  }

  /** The canonical decimal spelling of a natural number, as used for
      array indices turned into property keys. */
  function DecimalString(n: nat): string
    decreases n
  {
    if n < 10 then [Digit(n)] else DecimalString(n / 10) + [Digit(n % 10)]
  }

  function Digit(d: nat): char
    requires d < 10
  {
    "0123456789"[d]
  }
}
