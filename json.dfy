/** JSON values as the client sees them once a document has been decoded,
    and the two Python idioms the client applies to them: `obj.get(key, default)`
    and truthiness (`if value:` / `a or b`). */
module Json {

  datatype Option<+T> = None | Some(value: T)

  /** A decoded JSON document. Numbers are integers here: no floating point. */
  datatype Value =
    | JNull
    | JBool(b: bool)
    | JNum(n: int)
    | JStr(s: string)
    | JArr(items: seq<Value>)
    | JObj(fields: map<string, Value>)

  const EmptyObject: Value := JObj(map[])

  /** `value.get(key, default)`: the member when `value` is an object that has
      `key`, the default otherwise. */
  function Get(v: Value, key: string, default: Value): (r: Value)
    ensures v.JObj? && key in v.fields ==> r == v.fields[key]
    ensures !(v.JObj? && key in v.fields) ==> r == default
  {
    if v.JObj? && key in v.fields then v.fields[key] else default
  }

  /** Python truthiness of a decoded JSON value. */
  predicate Truthy(v: Value)
  {
    match v
    case JNull => false
    case JBool(b) => b
    case JNum(n) => n != 0
    case JStr(s) => s != ""
    case JArr(items) => items != []
    case JObj(fields) => fields != map[]
  }

  /** The falsy values are exactly null, false, 0, "", [] and {}. */
  lemma FalsyValues(v: Value)
    ensures !Truthy(v) <==> v in {JNull, JBool(false), JNum(0), JStr(""), JArr([]), JObj(map[])}
  {
  }

  /** A non-empty JSON string: the only kind of interaction id the history records. */
  predicate IsId(v: Value)
  {
    v.JStr? && v.s != ""
  }
}
