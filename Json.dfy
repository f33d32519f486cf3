/** JSON values as the client sees them after `JSON.parse`, with the JavaScript
    operations the library applies to them: truthiness (`if (x)`, `!x`, `!!x`),
    property reads (`x.name`) and strict equality (`===`).
    Absent properties (`undefined`) are `None` of an `Option<Json>`. */
module Json {
  import opened Wrappers

  datatype Json =
    | JNull
    | JBool(b: bool)
    | JNum(n: int)
    | JStr(s: string)
    | JArr(items: seq<Json>)
    | JObj(members: map<string, Json>)

  /** JavaScript truthiness: null, false, 0 and "" are falsy; arrays and objects,
      even empty ones, are truthy. */
  predicate Truthy(j: Json) {
    match j
    case JNull => false
    case JBool(b) => b
    case JNum(n) => n != 0
    case JStr(s) => s != ""
    case JArr(_) => true
    case JObj(_) => true
  }

  /** Truthiness of a value that may be `undefined`. */
  predicate Present(o: Option<Json>) {
    o.Some? && Truthy(o.value)
  }

  /** `j.name` on a value that is not null, for an own member of a parsed
      object; any other read yields `undefined` here. Members a value inherits
      from its prototype (`"abc".length`, `[].keys`) are not modelled. */
  function Prop(j: Json, name: string): (r: Option<Json>)
    ensures r.Some? <==> j.JObj? && name in j.members
    ensures r.Some? ==> r.value == j.members[name]
  {
    if j.JObj? then Lookup(j.members, name) else None
  }

  /** `j.name` where `j` may be null: reading a member of null throws a TypeError. */
  function Member(j: Json, name: string): (r: Result<Option<Json>>)
    ensures r.Err? <==> j == JNull
    ensures r.Ok? ==> r.value == Prop(j, name)
  {
    if j == JNull then Err("TypeError: Cannot read properties of null") else Ok(Prop(j, name))
  }

  /** `a === b` on two values taken from separately parsed documents: primitives
      compare by value, while two arrays or objects are never the same object. */
  predicate StrictEq(a: Json, b: Json) {
    match a
    case JNull => b == JNull
    case JBool(x) => b == JBool(x)
    case JNum(x) => b == JNum(x)
    case JStr(x) => b == JStr(x)
    case JArr(_) => false
    case JObj(_) => false
  }

  /** `a === b` where either side may be `undefined`. */
  predicate StrictEqOpt(a: Option<Json>, b: Option<Json>) {
    if a.None? || b.None? then a.None? && b.None? else StrictEq(a.value, b.value)
  }
}
