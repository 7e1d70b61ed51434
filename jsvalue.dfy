/** JSON values as the server stores and compares them, with JavaScript truthiness. */
module JsValue {

  /**
   * A parsed JSON value. Numbers are taken as integers: the values the model reads
   * (`sub`, `nonce`, `id_token`) are compared or tested for truthiness, never computed with.
   */
  datatype Json =
    | JNull
    | JBool(b: bool)
    | JNum(n: int)
    | JStr(s: string)
    | JArr(items: seq<Json>)
    | JObj(fields: map<string, Json>)

  /** JavaScript's `ToBoolean`: `null`, `false`, `0` and `""` are falsy; arrays and objects are truthy. */
  predicate Truthy(v: Json) {
    match v
    case JNull => false
    case JBool(b) => b
    case JNum(n) => n != 0
    case JStr(s) => s != []
    case JArr(_) => true
    case JObj(_) => true
  }
}
