/** Parsed JSON values, as `JSON.parse` returns them. */
module Json {
  import opened Basics

  /** A number is kept as its text. */
  datatype Value =
    | JNull
    | JBool(b: bool)
    | JNum(text: string)
    | JStr(s: string)
    | JArr(items: seq<Value>)
    | JObj(fields: map<string, Value>)

  /** A property; a missing one reads as undefined. */
  function Get(v: Value, key: string): Option<Value> {
    if v.JObj? && key in v.fields then Some(v.fields[key]) else None
  }

  /** A property that is a string, and the empty text for any other. */
  function StringOrEmpty(v: Value, key: string): string {
    match Get(v, key)
    case Some(JStr(s)) => s
    case _ => ""
  }

  predicate HasString(v: Value, key: string) {
    match Get(v, key)
    case Some(JStr(s)) => true
    case _ => false
  }

  /** Arrays are objects too. */
  predicate IsObject(v: Value) {
    v.JObj? || v.JArr?
  }

  /** A property that is an object. */
  function ObjectField(v: Value, key: string): Option<Value> {
    match Get(v, key)
    case Some(f) => if IsObject(f) then Some(f) else None
    case None => None
  }
}
