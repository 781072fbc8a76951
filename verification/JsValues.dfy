/** The JavaScript values an audit entry carries, and nothing of their text. */
module JsValues {
  import opened Common

  /**
   * The JavaScript values the audit trail hands over. A finite number is held as
   * its Number::toString text, a valid Date as its toISOString text, and an
   * object as its own enumerable string keys in property order.
   */
  datatype Value =
    | Undefined
    | Null
    | Bool(b: bool)
    | Finite(text: Text)
    | NonFinite
    | Str(s: Text)
    | Date(iso: Text)
    | Arr(elements: seq<Value>)
    | Obj(fields: seq<Field>)

  datatype Field = Field(key: Text, value: Value)

  function OrNull(t: Option<Text>): Value {
    if t.None? then Null else Str(t.value)
  }
}
