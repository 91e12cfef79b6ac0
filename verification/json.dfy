/** A parsed JSON value, as `JSON.parse` returns it. Object members are kept
    in the order `Object.entries`/`Object.values` enumerate them. */
module Json {

  datatype Json =
    | JNull
    | JBool(b: bool)
    | JNumber(n: real)
    | JString(s: string)
    | JArray(items: seq<Json>)
    | JObject(members: seq<Member>)

  datatype Member = Member(name: string, value: Json)

  /** JavaScript truthiness of a parsed value: `null`, `false` and `0` are
      falsy; every string but the empty one, every array and every object
      is truthy. */
  predicate Truthy(v: Json) {
    match v
    case JNull => false
    case JBool(b) => b
    case JNumber(n) => n != 0.0
    case JString(s) => s != ""
    case _ => true
  }
}
